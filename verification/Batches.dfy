/** The slices that a sync hands to its tasks. */
module Batches {
  import opened Domain
  import opened Service

  function Concat(slices: seq<seq<string>>): seq<string> {
    if slices == [] then [] else slices[0] + Concat(slices[1..])
  }

  /** For every positive batch size: the slices concatenate to the listed ids in order, each is non-empty and at
      most a batch, all but the last are a whole batch, and their number is the length over the batch size, rounded
      up. */
  lemma {:induction false} SlicesPartition(ids: seq<string>, size: nat)
    requires size > 0
    ensures Concat(Slices(ids, size)) == ids
    ensures forall k :: 0 <= k < |Slices(ids, size)| ==> 0 < |Slices(ids, size)[k]| <= size
    ensures forall k :: 0 <= k < |Slices(ids, size)| - 1 ==> |Slices(ids, size)[k]| == size
    ensures |ids| <= |Slices(ids, size)| * size < |ids| + size
  {
    if ids == [] {
    } else if |ids| <= size {
      assert [ids][1..] == [] && Concat([ids]) == ids + [];
    } else {
      SlicesPartition(ids[size..], size);
      assert Slices(ids, size)[1..] == Slices(ids[size..], size);
      assert (1 + |Slices(ids[size..], size)|) * size == size + |Slices(ids[size..], size)| * size;
    }
  }

  lemma {:induction false} ConcatMember(slices: seq<seq<string>>, k: nat, r: string)
    requires k < |slices| && r in slices[k]
    ensures r in Concat(slices)
  {
    if k > 0 {
      ConcatMember(slices[1..], k - 1, r);
    }
  }

  lemma {:induction false} ConcatSource(slices: seq<seq<string>>, r: string) returns (k: nat)
    requires r in Concat(slices)
    ensures k < |slices| && r in slices[k]
  {
    if r in slices[0] {
      k := 0;
    } else {
      var j := ConcatSource(slices[1..], r);
      k := j + 1;
    }
  }

  lemma NotInBoth(a: seq<string>, b: seq<string>, r: string)
    requires Distinct(a + b) && r in a
    ensures r !in b
  {
    var i :| 0 <= i < |a| && a[i] == r;
    assert (a + b)[i] == r;
    forall j | 0 <= j < |b|
      ensures b[j] != r
    {
      assert (a + b)[|a| + j] == b[j];
    }
  }

  lemma {:induction false} DistinctSlices(slices: seq<seq<string>>, j: nat, k: nat, r: string)
    requires Distinct(Concat(slices)) && j <= k < |slices| && r in slices[j] && r in slices[k]
    ensures j == k
  {
    var first, rest := slices[0], Concat(slices[1..]);
    if j > 0 {
      assert forall i :: 0 <= i < |rest| ==> rest[i] == Concat(slices)[|first| + i];
      DistinctSlices(slices[1..], j - 1, k - 1, r);
    } else if k > 0 {
      NotInBoth(first, rest, r);
      ConcatMember(slices[1..], k - 1, r);
      assert false;
    }
  }

  /** Every listed repository is handed to exactly one task of each kind, made out for the user at the provider. */
  lemma ExactlyOneTask(kind: TaskKind, p: string, u: nat, ids: seq<string>, size: nat, r: string)
    requires size > 0 && Distinct(ids)
    ensures var tasks := Tasks(kind, p, u, Slices(ids, size));
      && (forall k :: 0 <= k < |tasks| ==> tasks[k].kind == kind && tasks[k].provider == p && tasks[k].user == u)
      && (forall k :: 0 <= k < |tasks| && r in tasks[k].repos ==> r in ids)
      && (forall j, k :: 0 <= j < |tasks| && 0 <= k < |tasks| && r in tasks[j].repos && r in tasks[k].repos ==> j == k)
      && (r in ids ==> exists k :: 0 <= k < |tasks| && r in tasks[k].repos)
  {
    SlicesPartition(ids, size);
    var slices, tasks := Slices(ids, size), Tasks(kind, p, u, Slices(ids, size));
    forall k | 0 <= k < |tasks| && r in tasks[k].repos
      ensures r in ids
    {
      ConcatMember(slices, k, r);
    }
    forall j, k | 0 <= j < |tasks| && 0 <= k < |tasks| && r in tasks[j].repos && r in tasks[k].repos
      ensures j == k
    {
      DistinctSlices(slices, if j <= k then j else k, if j <= k then k else j, r);
    }
    if r in ids {
      var k := ConcatSource(slices, r);
      assert r in tasks[k].repos;
    }
  }
}
