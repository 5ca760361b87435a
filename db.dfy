/** The pure list helpers of the client registry: append, delete by local id and
    update by local id. Each returns a new list and leaves its argument alone, which
    value semantics give for free here. */
module Db {
  import opened Wrappers
  import opened Instances

  /** `Partial<Instance>`: a field that is `Some` overrides, a `None` field keeps the
      record's value. */
  datatype InstancePatch = InstancePatch(
    id: Option<string>,
    friendlyName: Option<string>,
    instanceId: Option<string>,
    status: Option<bool>,
    createdAt: Option<string>)

  /** The patch `{ status: s }` written by the status-change handlers. */
  function StatusPatch(s: bool): InstancePatch {
    InstancePatch(None, None, None, Some(s), None)
  }

  function Pick<T>(o: Option<T>, keep: T): T {
    if o.Some? then o.value else keep
  }

  /** `{ ...instance, ...updates }` */
  function ApplyPatch(x: Instance, p: InstancePatch): Instance {
    Instance(Pick(p.id, x.id), Pick(p.friendlyName, x.friendlyName), Pick(p.instanceId, x.instanceId),
             Pick(p.status, x.status), Pick(p.createdAt, x.createdAt))
  }

  /** How many records carry local id `id`. */
  function CountId(xs: seq<Instance>, id: string): nat {
    if xs == [] then 0 else (if xs[0].id == id then 1 else 0) + CountId(xs[1..], id)
  }

  /** `addLocalInstance`: the input followed by the new record; there is no
      uniqueness check, so a record whose id is already present is appended as well. */
  function AddLocalInstance(xs: seq<Instance>, x: Instance): (r: seq<Instance>)
    ensures |r| == |xs| + 1 && r[..|xs|] == xs && r[|xs|] == x
    ensures CountId(r, x.id) == CountId(xs, x.id) + 1
  {
    CountIdAppend(xs, [x], x.id);
    xs + [x]
  }

  lemma {:induction false} CountIdAppend(a: seq<Instance>, b: seq<Instance>, id: string)
    ensures CountId(a + b, id) == CountId(a, id) + CountId(b, id)
  {
    if a != [] {
      assert (a + b)[1..] == a[1..] + b;
      CountIdAppend(a[1..], b, id);
    } else {
      assert a + b == b;
    }
  }

  /** `deleteLocalInstance`, i.e. `filter((i) => i.id !== id)`: the result holds
      exactly the records of `xs` whose id differs, and it is shorter by the number of
      records that carry `id`. */
  function DeleteLocalInstance(xs: seq<Instance>, id: string): (r: seq<Instance>)
    ensures forall x :: x in r <==> x in xs && x.id != id
    ensures |r| == |xs| - CountId(xs, id)
  {
    if xs == [] then []
    else
      var rest := DeleteLocalInstance(xs[1..], id);
      assert forall x :: x in xs <==> x == xs[0] || x in xs[1..];
      if xs[0].id == id then rest else [xs[0]] + rest
  }

  /** Deleting distributes over concatenation: the kept records stay in their
      original order. With DeleteOne this pins the function down as a filter. */
  lemma {:induction false} DeleteAppend(a: seq<Instance>, b: seq<Instance>, id: string)
    ensures DeleteLocalInstance(a + b, id) == DeleteLocalInstance(a, id) + DeleteLocalInstance(b, id)
  {
    if a != [] {
      assert (a + b)[1..] == a[1..] + b;
      DeleteAppend(a[1..], b, id);
    } else {
      assert a + b == b;
    }
  }

  /** On a single record, delete removes it exactly when it carries the id. */
  lemma DeleteOne(x: Instance, id: string)
    ensures DeleteLocalInstance([x], id) == if x.id == id then [] else [x]
  {
    assert [x][1..] == [];
  }

  /** Deleting an id that is absent gives back an equal list (no error). */
  lemma {:induction false} DeleteAbsent(xs: seq<Instance>, id: string)
    requires forall k :: 0 <= k < |xs| ==> xs[k].id != id
    ensures DeleteLocalInstance(xs, id) == xs
  {
    if xs != [] {
      DeleteAbsent(xs[1..], id);
    }
  }

  /** Deleting twice is deleting once. */
  lemma DeleteIdempotent(xs: seq<Instance>, id: string)
    ensures DeleteLocalInstance(DeleteLocalInstance(xs, id), id) == DeleteLocalInstance(xs, id)
  {
    var r := DeleteLocalInstance(xs, id);
    forall k | 0 <= k < |r| ensures r[k].id != id {
      assert r[k] in r;
    }
    DeleteAbsent(r, id);
  }

  /** `updateLocalInstance`, i.e. `map((i) => i.id === id ? { ...i, ...updates } : i)`. */
  function UpdateLocalInstance(xs: seq<Instance>, id: string, p: InstancePatch): (r: seq<Instance>)
    ensures |r| == |xs|
  {
    seq(|xs|, k requires 0 <= k < |xs| => if xs[k].id == id then ApplyPatch(xs[k], p) else xs[k])
  }

  /** Update keeps length and order: records with another id are untouched, and in a
      matching record each field the patch carries takes the patch's value while every
      other field keeps its old value. */
  lemma UpdateAt(xs: seq<Instance>, id: string, p: InstancePatch, k: nat)
    requires k < |xs|
    ensures xs[k].id != id ==> UpdateLocalInstance(xs, id, p)[k] == xs[k]
    ensures xs[k].id == id ==>
      var y := UpdateLocalInstance(xs, id, p)[k];
      && (p.friendlyName.Some? ==> y.friendlyName == p.friendlyName.value)
      && (p.friendlyName.None? ==> y.friendlyName == xs[k].friendlyName)
      && (p.instanceId.Some? ==> y.instanceId == p.instanceId.value)
      && (p.instanceId.None? ==> y.instanceId == xs[k].instanceId)
      && (p.status.Some? ==> y.status == p.status.value)
      && (p.status.None? ==> y.status == xs[k].status)
      && (p.createdAt.Some? ==> y.createdAt == p.createdAt.value)
      && (p.createdAt.None? ==> y.createdAt == xs[k].createdAt)
      && (p.id.Some? ==> y.id == p.id.value)
      && (p.id.None? ==> y.id == id)
  {
  }

  /** Applying the same update twice is applying it once. */
  lemma UpdateIdempotent(xs: seq<Instance>, id: string, p: InstancePatch)
    requires p.id.None? || p.id == Some(id)
    ensures UpdateLocalInstance(UpdateLocalInstance(xs, id, p), id, p) == UpdateLocalInstance(xs, id, p)
  {
  }

  /** The status-change handlers' map: `{ ...i, status: s }` on matching ids. Only the
      `status` of matching records changes, so provider identifiers stay unique. */
  function SetStatus(xs: seq<Instance>, id: string, s: bool): (r: seq<Instance>)
    ensures |r| == |xs|
    ensures forall k :: 0 <= k < |xs| ==> r[k] == if xs[k].id == id then xs[k].(status := s) else xs[k]
    ensures UniqueInstanceIds(xs) ==> UniqueInstanceIds(r)
  {
    UpdateLocalInstance(xs, id, StatusPatch(s))
  }
}
