/** The appliance-label scan route (app/api/scan-appliance/route.ts): its input
    checks, the shape check on the model's reply, and the line parser that pulls
    the `Model:` and `Serial:` values out of the reply text. The remote call is an
    input; the prompt, the image encoding and the scan counter are left out. */
module ScanAppliance {
  import opened Text
  import opened Wrappers

  const NotFound := "Not found"

  /** A line whose trimmed, lower-cased form starts with "model:". */
  predicate IsModelLine(line: string) {
    StartsWith(Lower(Trim(line)), "model:")
  }

  /** A line that is not a model line and whose trimmed, lower-cased form starts
      with "serial:" (the `else if`). */
  predicate IsSerialLine(line: string) {
    !IsModelLine(line) && StartsWith(Lower(Trim(line)), "serial:")
  }

  /** The text after the first 6 characters of the trimmed line, trimmed. */
  function ModelValue(line: string): string
    requires IsModelLine(line)
  {
    Trim(Trim(line)[6..])
  }

  /** The text after the first 7 characters of the trimmed line, trimmed. */
  function SerialValue(line: string): string
    requires IsSerialLine(line)
  {
    Trim(Trim(line)[7..])
  }

  /** What one line contributes: a model value, a serial value, or nothing. */
  datatype Kind = ModelLine(value: string) | SerialLine(value: string) | OtherLine

  /** The `if` / `else if` on one line. */
  function Classify(line: string): Kind {
    if IsModelLine(line) then ModelLine(ModelValue(line))
    else if IsSerialLine(line) then SerialLine(SerialValue(line))
    else OtherLine
  }

  /** The kinds of the lines, in order. */
  function Kinds(lines: seq<string>): (ks: seq<Kind>)
    ensures |ks| == |lines|
  {
    if lines == [] then [] else Kinds(lines[..|lines| - 1]) + [Classify(lines[|lines| - 1])]
  }

  datatype Fields = Fields(model: string, serial: string)

  /** One turn of the loop: a model line sets the model, a serial line the serial,
      any other line is ignored. */
  function Step(f: Fields, k: Kind): Fields {
    match k
    case ModelLine(v) => f.(model := v)
    case SerialLine(v) => f.(serial := v)
    case OtherLine => f
  }

  /** The values after the loop has read lines of the given kinds, starting from
      "Not found". */
  function Fold(ks: seq<Kind>): Fields {
    if ks == [] then Fields(NotFound, NotFound)
    else Step(Fold(ks[..|ks| - 1]), ks[|ks| - 1])
  }

  function Scanned(lines: seq<string>): Fields {
    Fold(Kinds(lines))
  }

  /** Reading one more line adds its kind at the end. */
  lemma KindsSnoc(lines: seq<string>, i: nat)
    requires i < |lines|
    ensures Kinds(lines[..i + 1]) == Kinds(lines[..i]) + [Classify(lines[i])]
  {
    assert lines[..i + 1][..i] == lines[..i];
  }

  /** The `for (const line of lines)` loop over the split reply text. */
  method ParseLines(lines: seq<string>) returns (modelNumber: string, serialNumber: string)
    ensures Fields(modelNumber, serialNumber) == Scanned(lines)
  {
    modelNumber := NotFound;
    serialNumber := NotFound;
    for i := 0 to |lines|
      invariant Fields(modelNumber, serialNumber) == Scanned(lines[..i])
    {
      ghost var before := Fields(modelNumber, serialNumber);
      var trimmedLine := Trim(lines[i]);
      if StartsWith(Lower(trimmedLine), "model:") {
        modelNumber := Trim(trimmedLine[6..]);
      } else if StartsWith(Lower(trimmedLine), "serial:") {
        serialNumber := Trim(trimmedLine[7..]);
      }
      assert Fields(modelNumber, serialNumber) == Step(before, Classify(lines[i]));
      KindsSnoc(lines, i);
    }
    assert lines[..|lines|] == lines;
  }

  /** The last model line decides the model: when entry k is a model line and no
      later one is, the model is entry k's value. */
  lemma {:induction false} LastModelWins(ks: seq<Kind>, k: nat)
    requires k < |ks| && ks[k].ModelLine?
    requires forall j :: k < j < |ks| ==> !ks[j].ModelLine?
    ensures Fold(ks).model == ks[k].value
    decreases |ks|
  {
    if k < |ks| - 1 {
      LastModelWins(ks[..|ks| - 1], k);
    }
  }

  /** The last serial line decides the serial. */
  lemma {:induction false} LastSerialWins(ks: seq<Kind>, k: nat)
    requires k < |ks| && ks[k].SerialLine?
    requires forall j :: k < j < |ks| ==> !ks[j].SerialLine?
    ensures Fold(ks).serial == ks[k].value
    decreases |ks|
  {
    if k < |ks| - 1 {
      LastSerialWins(ks[..|ks| - 1], k);
    }
  }

  /** With no model line the model stays "Not found". */
  lemma {:induction false} ModelDefault(ks: seq<Kind>)
    requires forall j :: 0 <= j < |ks| ==> !ks[j].ModelLine?
    ensures Fold(ks).model == NotFound
  {
    if ks != [] {
      ModelDefault(ks[..|ks| - 1]);
    }
  }

  /** With no serial line the serial stays "Not found". */
  lemma {:induction false} SerialDefault(ks: seq<Kind>)
    requires forall j :: 0 <= j < |ks| ==> !ks[j].SerialLine?
    ensures Fold(ks).serial == NotFound
  {
    if ks != [] {
      SerialDefault(ks[..|ks| - 1]);
    }
  }

  /** A line that is neither a model nor a serial line can be dropped from anywhere
      without changing the result. */
  lemma {:induction false} IgnoredLine(a: seq<Kind>, b: seq<Kind>)
    ensures Fold(a + [OtherLine] + b) == Fold(a + b)
    decreases |b|
  {
    if b == [] {
      assert a + [OtherLine] + b == a + [OtherLine];
      assert a + b == a;
    } else {
      var b' := b[..|b| - 1];
      IgnoredLine(a, b');
      assert (a + [OtherLine] + b)[..|a| + 1 + |b| - 1] == a + [OtherLine] + b';
      assert (a + b)[..|a| + |b| - 1] == a + b';
    }
  }

  /** Entry k of the kinds is the kind of line k. */
  lemma {:induction false} KindsAt(lines: seq<string>, k: nat)
    requires k < |lines|
    ensures Kinds(lines)[k] == Classify(lines[k])
    decreases |lines|
  {
    if k < |lines| - 1 {
      KindsAt(lines[..|lines| - 1], k);
    }
  }

  /** The result for a whole reply: the last model line gives the model. */
  lemma ScannedModel(lines: seq<string>, k: nat)
    requires k < |lines| && Classify(lines[k]).ModelLine?
    requires forall j :: k < j < |lines| ==> !Classify(lines[j]).ModelLine?
    ensures Scanned(lines).model == Classify(lines[k]).value
  {
    var ks := Kinds(lines);
    forall j | k <= j < |lines| ensures ks[j] == Classify(lines[j]) {
      KindsAt(lines, j);
    }
    LastModelWins(ks, k);
  }

  /** The result for a whole reply: the last serial line gives the serial. */
  lemma ScannedSerial(lines: seq<string>, k: nat)
    requires k < |lines| && Classify(lines[k]).SerialLine?
    requires forall j :: k < j < |lines| ==> !Classify(lines[j]).SerialLine?
    ensures Scanned(lines).serial == Classify(lines[k]).value
  {
    var ks := Kinds(lines);
    forall j | k <= j < |lines| ensures ks[j] == Classify(lines[j]) {
      KindsAt(lines, j);
    }
    LastSerialWins(ks, k);
  }

  /** Case does not matter and surrounding white space is dropped: a line made of
      any casing of "model:" followed by `s` is a model line whose value is `s`
      trimmed. */
  lemma ModelLineAnyCase(p: string, s: string)
    requires |p| == 6 && Lower(p) == "model:"
    ensures Classify(p + s) == ModelLine(Trim(s))
  {
    assert LowerChar(p[0]) == 'm' && LowerChar(p[5]) == ':';
    TrimAfterWord(p, s);
    var line := Trim(p + s);
    assert Lower(line)[..6] == Lower(p);
    assert line[6..] == TrimEnd(s);
    TrimAfterTrimEnd(s);
  }

  /** The serial counterpart, for any casing of "serial:". */
  lemma SerialLineAnyCase(p: string, s: string)
    requires |p| == 7 && Lower(p) == "serial:"
    ensures Classify(p + s) == SerialLine(Trim(s))
  {
    assert LowerChar(p[0]) == 's' && LowerChar(p[6]) == ':';
    TrimAfterWord(p, s);
    var line := Trim(p + s);
    var low := Lower(line);
    assert low[..7] == Lower(p);
    assert !IsModelLine(p + s) by {
      assert low[0] == 's';
    }
    assert line[7..] == TrimEnd(s);
    TrimAfterTrimEnd(s);
  }

  /** A line that starts with a word whose first and last characters are not
      white space loses only the white space after the word when trimmed. */
  lemma TrimAfterWord(p: string, s: string)
    requires p != [] && !IsTrimmable(p[0]) && !IsTrimmable(p[|p| - 1])
    ensures Trim(p + s) == p + TrimEnd(s)
  {
    TrimStartUnique(p + s, 0);
    TrimEndAfter(p, s);
  }

  // ---------------------------------------------------------------------------
  // The route

  /** A part of the model's reply; its `text` may be absent. */
  datatype Part = Part(text: Option<string>)
  datatype Content = Content(parts: Option<seq<Part>>)
  datatype Candidate = Candidate(content: Option<Content>)

  /** The remote call: it threw (network failure or a body that is not JSON),
      answered with a non-ok HTTP status, or answered with a JSON body whose
      `candidates` may be absent. */
  datatype Reply = CallThrew | HttpError(status: int) | Answered(candidates: Option<seq<Candidate>>)

  /** The multipart body: not parseable (`request.formData()` throws), or parsed
      with or without an `image` entry. */
  datatype Form = Unparseable | Parsed(hasImage: bool)

  datatype Response =
    | Scan(modelNumber: string, serialNumber: string)   // 200, `success: true`
    | Failed(status: int)                             // `success: false`

  /** The text of the first part of the first candidate, when the reply has the
      shape the route checks for (a non-empty `candidates`, a `content`, a
      non-empty `parts`). A missing `text` makes `.trim()` throw. */
  function ReplyText(candidates: Option<seq<Candidate>>): Option<string> {
    if candidates.Some? && |candidates.value| > 0
      && candidates.value[0].content.Some?
      && candidates.value[0].content.value.parts.Some?
      && |candidates.value[0].content.value.parts.value| > 0
    then candidates.value[0].content.value.parts.value[0].text
    else None
  }

  /** `POST`: the API key is checked first (500), then the form (500 when it does not
      parse, 400 without an image); a non-ok reply passes its status on; a reply
      without text is a 500; otherwise the trimmed text is split into lines and
      parsed. */
  method Post(apiKey: Option<string>, form: Form, reply: Reply) returns (r: Response)
    ensures apiKey.None? || apiKey == Some("") ==> r == Failed(500)
    ensures apiKey.Some? && apiKey.value != "" && form.Unparseable? ==> r == Failed(500)
    ensures apiKey.Some? && apiKey.value != "" && form == Parsed(false) ==> r == Failed(400)
    ensures r.Scan? <==>
      && apiKey.Some? && apiKey.value != "" && form == Parsed(true)
      && reply.Answered? && ReplyText(reply.candidates).Some?
    ensures r.Scan? ==>
      Fields(r.modelNumber, r.serialNumber) == Scanned(Split(Trim(ReplyText(reply.candidates).value)))
    ensures apiKey.Some? && apiKey.value != "" && form == Parsed(true) && reply.HttpError? ==>
      r == Failed(reply.status)
    ensures (apiKey.Some? && apiKey.value != "" && form == Parsed(true)
             && (reply.CallThrew? || (reply.Answered? && ReplyText(reply.candidates).None?))) ==> r == Failed(500)
  {
    if apiKey.None? || apiKey.value == "" {
      return Failed(500);
    }
    if form.Unparseable? {
      return Failed(500);
    }
    if !form.hasImage {
      return Failed(400);
    }
    match reply {
      case CallThrew =>
        r := Failed(500);
      case HttpError(status) =>
        r := Failed(status);
      case Answered(candidates) =>
        var text := ReplyText(candidates);
        if text.None? {
          r := Failed(500);
        } else {
          var extractedText := Trim(text.value);
          var lines := Split(extractedText);
          var modelNumber, serialNumber := ParseLines(lines);
          r := Scan(modelNumber, serialNumber);
        }
    }
  }
}
