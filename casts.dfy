/** remix/app/utils/casts.server.ts, `mergeCasts` only: the cast list of a
    product is assembled from several search sites, and a later list only
    contributes the performers whose names the earlier one lacks. */
module Casts {
  import opened Strings

  /** One search hit: the performer's page and name. */
  datatype Cast = Cast(link: string, name: string)

  /** `casts.map(({ name }) => name)` */
  function Names(casts: seq<Cast>): (names: seq<string>)
    ensures |names| == |casts|
    ensures forall i :: 0 <= i < |casts| ==> names[i] == casts[i].name
  {
    seq(|casts|, i requires 0 <= i < |casts| => casts[i].name)
  }

  /** `casts.filter(({ name }) => !taken.includes(name))`: the casts whose
      name is not taken, in their order. */
  function Unnamed(casts: seq<Cast>, taken: seq<string>): (r: seq<Cast>)
    ensures |r| <= |casts|
    ensures Subsequence(r, casts)
    ensures forall c :: c in r <==> c in casts && c.name !in taken
    ensures forall c :: multiset(r)[c] == if c.name in taken then 0 else multiset(casts)[c]
    decreases |casts|
  {
    if casts == [] then []
    else
      var rest := Unnamed(casts[1..], taken);
      assert casts == [casts[0]] + casts[1..];
      if casts[0].name in taken then
        SubsequenceDrop(rest, casts);
        rest
      else
        assert ([casts[0]] + rest)[1..] == rest;
        [casts[0]] + rest
  }

  /** `mergeCasts(casts1, casts2)` */
  function MergeCasts(casts1: seq<Cast>, casts2: seq<Cast>): (r: seq<Cast>)
    ensures |casts1| <= |r| <= |casts1| + |casts2|
    ensures r[..|casts1|] == casts1
    ensures Subsequence(r[|casts1|..], casts2)
    ensures forall c :: c in r[|casts1|..] <==> c in casts2 && c.name !in Names(casts1)
    ensures forall c :: multiset(r[|casts1|..])[c] == if c.name in Names(casts1) then 0 else multiset(casts2)[c]
  {
    var r := casts1 + Unnamed(casts2, Names(casts1));
    assert r[|casts1|..] == Unnamed(casts2, Names(casts1));
    r
  }

  /** Every name in a cast list is among its names. */
  lemma NameListed(casts: seq<Cast>, c: Cast)
    requires c in casts
    ensures c.name in Names(casts)
  {
    var i :| 0 <= i < |casts| && casts[i] == c;
    assert Names(casts)[i] == c.name;
  }

  /** With nothing taken, filtering keeps everything. */
  lemma {:induction false} UnnamedNoneTaken(casts: seq<Cast>)
    ensures Unnamed(casts, []) == casts
    decreases |casts|
  {
    if casts != [] {
      UnnamedNoneTaken(casts[1..]);
      assert [casts[0]] + casts[1..] == casts;
    }
  }

  /** Merging with nothing from either side gives the other list. */
  lemma MergeIdentities(casts1: seq<Cast>, casts2: seq<Cast>)
    ensures MergeCasts(casts1, []) == casts1
    ensures MergeCasts([], casts2) == casts2
  {
    assert Names([]) == [];
    UnnamedNoneTaken(casts2);
  }

  /** A cast of the second list is added exactly when no cast of the first
      one bears its name. */
  lemma MergeMembership(casts1: seq<Cast>, casts2: seq<Cast>, c: Cast)
    requires c !in casts1
    ensures c in MergeCasts(casts1, casts2) <==>
      c in casts2 && forall k :: 0 <= k < |casts1| ==> casts1[k].name != c.name
  {
    var r := MergeCasts(casts1, casts2);
    assert r == casts1 + r[|casts1|..];
    if c in casts2 && c.name in Names(casts1) {
      var k :| 0 <= k < |casts1| && Names(casts1)[k] == c.name;
      assert casts1[k].name == c.name;
    }
  }

  /** If every cast of `casts` has a taken name, filtering leaves nothing. */
  lemma {:induction false} UnnamedAllTaken(casts: seq<Cast>, taken: seq<string>)
    requires forall c :: c in casts ==> c.name in taken
    ensures Unnamed(casts, taken) == []
    decreases |casts|
  {
    if casts != [] {
      assert casts[0] in casts;
      forall c | c in casts[1..] ensures c.name in taken {
        assert c in casts;
      }
      UnnamedAllTaken(casts[1..], taken);
    }
  }

  /** Merging the same second list again adds nothing. */
  lemma MergeIdempotent(casts1: seq<Cast>, casts2: seq<Cast>)
    ensures MergeCasts(MergeCasts(casts1, casts2), casts2) == MergeCasts(casts1, casts2)
  {
    var m := MergeCasts(casts1, casts2);
    forall c | c in casts2 ensures c.name in Names(m) {
      if c.name in Names(casts1) {
        var k :| 0 <= k < |casts1| && Names(casts1)[k] == c.name;
        assert m[k] == casts1[k];
        NameListed(m, m[k]);
      } else {
        assert c in m[|casts1|..];
        assert c in m;
        NameListed(m, c);
      }
    }
    UnnamedAllTaken(casts2, Names(m));
    assert MergeCasts(m, casts2) == m + [];
  }

  /** Repeats inside the second list survive when their name is new: a
      cast whose name the first list lacks is added as many times as the
      second list holds it, and the merge is longer by that much. */
  lemma DuplicatesKept(casts1: seq<Cast>, casts2: seq<Cast>, c: Cast)
    requires forall k :: 0 <= k < |casts1| ==> casts1[k].name != c.name
    ensures multiset(MergeCasts(casts1, casts2)[|casts1|..])[c] == multiset(casts2)[c]
    ensures multiset(MergeCasts(casts1, casts2))[c] == multiset(casts1)[c] + multiset(casts2)[c]
  {
    var r := MergeCasts(casts1, casts2);
    assert forall k :: 0 <= k < |casts1| ==> Names(casts1)[k] != c.name;
    assert r == casts1 + r[|casts1|..];
  }
}
