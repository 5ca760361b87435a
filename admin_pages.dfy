/** The editable-pages admin route (app/api/admin/pages/route.ts): listing the
    `.html` files of the pages directory and creating a page under a sanitised
    name. The directory is a parameter; the file system calls are left out. */
module AdminPages {
  import opened Text
  import opened Wrappers

  const Ext := ".html"

  /** `pat` occurs in `s` at index `j`. */
  predicate OccursAt(s: string, pat: string, j: nat) {
    j + |pat| <= |s| && s[j..j + |pat|] == pat
  }

  /** The first index at or after `from` where `pat` occurs. */
  function IndexOf(s: string, pat: string, from: nat): (r: Option<nat>)
    requires from <= |s|
    decreases |s| - from
    ensures r.Some? ==> from <= r.value && OccursAt(s, pat, r.value)
    ensures r.Some? ==> forall j :: from <= j < r.value ==> !OccursAt(s, pat, j)
    ensures r.None? ==> forall j :: from <= j <= |s| ==> !OccursAt(s, pat, j)
  {
    if from + |pat| > |s| then None
    else if s[from..from + |pat|] == pat then Some(from)
    else IndexOf(s, pat, from + 1)
  }

  /** `s.replace(pat, '')` with a string pattern: only the first occurrence goes. */
  function RemoveFirst(s: string, pat: string): string {
    match IndexOf(s, pat, 0)
    case None => s
    case Some(i) => s[..i] + s[i + |pat|..]
  }

  datatype Page = Page(name: string, path: string)

  /** The name shown for a file: `file.replace('.html', '')`. */
  function PageName(file: string): string {
    RemoveFirst(file, Ext)
  }

  /** `GET`'s projection: the `.html` files, in directory order, each with its name. */
  function ListPages(files: seq<string>): (pages: seq<Page>)
    ensures |pages| <= |files|
    ensures forall p :: p in pages <==> exists f :: f in files && EndsWith(f, Ext) && p == Page(PageName(f), f)
  {
    if files == [] then []
    else
      var rest := ListPages(files[1..]);
      if EndsWith(files[0], Ext) then [Page(PageName(files[0]), files[0])] + rest else rest
  }

  /** The listing keeps directory order: listing a concatenation is listing each
      part in turn. */
  lemma {:induction false} ListPagesAppend(a: seq<string>, b: seq<string>)
    ensures ListPages(a + b) == ListPages(a) + ListPages(b)
  {
    if a == [] {
      assert a + b == b;
    } else {
      assert (a + b)[1..] == a[1..] + b;
      ListPagesAppend(a[1..], b);
    }
  }

  /** On a single file, the listing keeps it exactly when it ends in ".html". */
  lemma ListPagesOne(f: string)
    ensures ListPages([f]) == if EndsWith(f, Ext) then [Page(PageName(f), f)] else []
  {
    assert [f][1..] == [];
  }

  /** The page-name sanitiser: ASCII lower case, anything outside `[a-z0-9-]`
      replaced by `-`. */
  function SanitizePageName(name: string): (r: string)
    ensures |r| == |name|
    ensures forall i :: 0 <= i < |r| ==> IsSlugChar(r[i], false)
  {
    Slug(name, false)
  }

  /** Sanitising twice is sanitising once. */
  lemma SanitizeIdempotent(name: string)
    ensures SanitizePageName(SanitizePageName(name)) == SanitizePageName(name)
  {
    SlugIdempotent(name, false);
  }

  /** A name without dots gets its name back from the listing: the first ".html" in
      `n + ".html"` is the extension. */
  lemma NameRoundTrip(n: string)
    requires '.' !in n
    ensures PageName(n + Ext) == n
  {
    var s := n + Ext;
    assert OccursAt(s, Ext, |n|) by {
      assert s[|n|..|n| + |Ext|] == Ext;
    }
    var i := IndexOf(s, Ext, 0);
    forall j | 0 <= j < |n| ensures !OccursAt(s, Ext, j) {
      assert s[j..j + |Ext|][0] == n[j];
    }
    assert i == Some(|n|);
    assert s[..|n|] == n;
  }

  /** A sanitised name has no dot, so the page created under it is listed with that
      name. */
  lemma CreatedPageListed(name: string, files: seq<string>)
    requires SanitizePageName(name) + Ext in files
    ensures var s := SanitizePageName(name); Page(s, s + Ext) in ListPages(files)
  {
    var s := SanitizePageName(name);
    assert '.' !in s;
    NameRoundTrip(s);
    assert EndsWith(s + Ext, Ext) by {
      assert (s + Ext)[|s + Ext| - |Ext|..] == Ext;
    }
  }

  /** The `name` field: `None` when it is absent or falsy (`null`, `""`, `0`,
      `false`); a present name is a string. */
  datatype Body = Unparseable | Parsed(name: Option<string>)

  datatype Response =
    | Created(page: Page)     // 200
    | BadRequest(error: string)  // 400
    | Conflict                // 409
    | ServerError             // 500

  /** `POST`: `existing` is the set of file names in the pages directory, and
      `writeFails` says whether writing the new file throws. The result carries the
      directory afterwards. */
  function CreatePage(body: Body, existing: set<string>, writeFails: bool): (r: (Response, set<string>))
    ensures body.Unparseable? ==> r == (ServerError, existing)
    ensures body.Parsed? && (body.name.None? || body.name.value == "") ==> r == (BadRequest("Page name is required"), existing)
    ensures r.0.Conflict? <==>
      body.Parsed? && body.name.Some? && body.name.value != "" && SanitizePageName(body.name.value) + Ext in existing
    ensures r.0.Created? <==>
      body.Parsed? && body.name.Some? && body.name.value != "" && SanitizePageName(body.name.value) + Ext !in existing
      && !writeFails
    ensures (body.Parsed? && body.name.Some? && body.name.value != ""
             && SanitizePageName(body.name.value) + Ext !in existing && writeFails) ==> r == (ServerError, existing)
    ensures r.0.Created? ==>
      && body.Parsed? && body.name.Some?
      && r.0.page == Page(SanitizePageName(body.name.value), SanitizePageName(body.name.value) + Ext)
      && r.0.page.path !in existing
      && r.1 == existing + {r.0.page.path}
    ensures !r.0.Created? ==> r.1 == existing
  {
    match body
    case Unparseable => (ServerError, existing)
    case Parsed(name) =>
      if name.None? || name.value == "" then (BadRequest("Page name is required"), existing)
      else
        var sanitizedName := SanitizePageName(name.value);
        var filePath := sanitizedName + Ext;
        if filePath in existing then (Conflict, existing)
        else if writeFails then (ServerError, existing)
        else (Created(Page(sanitizedName, filePath)), existing + {filePath})
  }

  /** Creating the same name twice: the second attempt is a conflict and writes
      nothing. */
  lemma CreateTwiceConflicts(name: string, existing: set<string>)
    requires name != ""
    ensures var (r1, after) := CreatePage(Parsed(Some(name)), existing, false);
      r1.Created? ==> CreatePage(Parsed(Some(name)), after, false) == (Conflict, after)
  {
  }
}
