/** Sighting identity, the filter that keeps only sightings a group has not
    been told about, and the bounded, most-recent-first list of keys already
    announced (index.js:113-126). */
module Sightings {
  import opened Wrappers

  /** One notable observation as the provider reports it; only these four
      fields are read. */
  datatype Sighting = Sighting(speciesCode: string, comName: string, locName: string, obsDt: string)

  /** How many keys a group's seen list keeps. */
  const MaxSeen := 100

  /** The dedup key of a sighting: species code and observation time joined by a hyphen. */
  function Key(b: Sighting): (k: string)
    ensures |k| == |b.speciesCode| + 1 + |b.obsDt|
    ensures k[..|b.speciesCode|] == b.speciesCode && k[|b.speciesCode|] == '-'
    ensures k[|b.speciesCode| + 1..] == b.obsDt
  {
    b.speciesCode + "-" + b.obsDt
  }

  /** Two sightings share a key exactly when they share species and time,
      provided species codes hold no hyphen: `"a-b"` with time `"c"` and `"a"`
      with time `"b-c"` both give the key `"a-b-c"`. */
  lemma KeyInjective(a: Sighting, b: Sighting)
    requires '-' !in a.speciesCode && '-' !in b.speciesCode
    ensures Key(a) == Key(b) <==> a.speciesCode == b.speciesCode && a.obsDt == b.obsDt
  {
    if Key(a) == Key(b) {
      var n, m := |a.speciesCode|, |b.speciesCode|;
      assert Key(a)[n] == '-' && Key(b)[m] == '-';
      if n < m {
        assert false;
      } else if m < n {
        assert false;
      }
      assert a.speciesCode == Key(a)[..n] && b.speciesCode == Key(b)[..m];
      assert a.obsDt == Key(a)[n + 1..] && b.obsDt == Key(b)[m + 1..];
    }
  }

  /** The keys of a list of sightings, in the same order. */
  function Keys(bs: seq<Sighting>): (ks: seq<string>)
    ensures |ks| == |bs|
    ensures forall i :: 0 <= i < |bs| ==> ks[i] == Key(bs[i])
  {
    if bs == [] then [] else [Key(bs[0])] + Keys(bs[1..])
  }

  /** The fetched sightings whose key is not in `seen`, in provider order. */
  function FilterNew(seen: seq<string>, fetched: seq<Sighting>): (r: seq<Sighting>)
    ensures |r| <= |fetched|
    ensures forall b :: b in r <==> b in fetched && Key(b) !in seen
  {
    if fetched == [] then []
    else
      var head := if Key(fetched[0]) in seen then [] else [fetched[0]];
      head + FilterNew(seen, fetched[1..])
  }

  /** Nothing is new exactly when every fetched key is already in `seen`. */
  lemma FilterNewEmpty(seen: seq<string>, fetched: seq<Sighting>)
    ensures FilterNew(seen, fetched) == [] <==> forall b :: b in fetched ==> Key(b) in seen
  {
    var r := FilterNew(seen, fetched);
    if r != [] {
      assert r[0] in r;
    }
  }

  /** Against an empty seen list every fetched sighting is new. */
  lemma {:induction false} FilterNewNothingSeen(fetched: seq<Sighting>)
    ensures FilterNew([], fetched) == fetched
  {
    if fetched != [] {
      FilterNewNothingSeen(fetched[1..]);
      assert [fetched[0]] + fetched[1..] == fetched;
    }
  }

  predicate StrictlyIncreasing(idx: seq<nat>) {
    forall k, l :: 0 <= k < l < |idx| ==> idx[k] < idx[l]
  }

  /** Every position moved one place on. */
  function Shift(idx: seq<nat>): (r: seq<nat>)
    ensures |r| == |idx|
    ensures forall k :: 0 <= k < |idx| ==> r[k] == idx[k] + 1
  {
    if idx == [] then [] else [idx[0] + 1] + Shift(idx[1..])
  }

  lemma ShiftMembers(idx: seq<nat>, j: nat)
    ensures j in Shift(idx) <==> 1 <= j && j - 1 in idx
  {
    if j in Shift(idx) {
      var k :| 0 <= k < |idx| && Shift(idx)[k] == j;
    }
    if 1 <= j && j - 1 in idx {
      var k :| 0 <= k < |idx| && idx[k] == j - 1;
      assert Shift(idx)[k] == j;
    }
  }

  lemma ShiftIncreasing(idx: seq<nat>)
    requires StrictlyIncreasing(idx)
    ensures StrictlyIncreasing(Shift(idx))
    ensures StrictlyIncreasing([0] + Shift(idx))
  {
    var r := [0] + Shift(idx);
    forall k, l | 0 <= k < l < |r| ensures r[k] < r[l] {
      if k > 0 {
        assert r[k] == idx[k - 1] + 1 && r[l] == idx[l - 1] + 1;
      }
    }
  }

  /** The positions of `fetched` holding a sighting whose key is not in `seen`. */
  ghost function NewPositions(seen: seq<string>, fetched: seq<Sighting>): seq<nat> {
    if fetched == [] then []
    else (if Key(fetched[0]) in seen then [] else [0]) + Shift(NewPositions(seen, fetched[1..]))
  }

  lemma {:induction false} NewPositionsIncreasing(seen: seq<string>, fetched: seq<Sighting>)
    ensures StrictlyIncreasing(NewPositions(seen, fetched))
  {
    if fetched != [] {
      NewPositionsIncreasing(seen, fetched[1..]);
      ShiftIncreasing(NewPositions(seen, fetched[1..]));
    }
  }

  lemma {:induction false} NewPositionsCount(seen: seq<string>, fetched: seq<Sighting>)
    ensures |NewPositions(seen, fetched)| == |FilterNew(seen, fetched)|
  {
    if fetched != [] {
      NewPositionsCount(seen, fetched[1..]);
    }
  }

  lemma {:induction false} NewPositionAt(seen: seq<string>, fetched: seq<Sighting>, k: nat)
    requires k < |NewPositions(seen, fetched)| == |FilterNew(seen, fetched)|
    ensures NewPositions(seen, fetched)[k] < |fetched|
    ensures FilterNew(seen, fetched)[k] == fetched[NewPositions(seen, fetched)[k]]
  {
    var rest := fetched[1..];
    NewPositionsCount(seen, rest);
    var d := if Key(fetched[0]) in seen then 0 else 1;
    if k >= d {
      NewPositionAt(seen, rest, k - d);
      assert NewPositions(seen, fetched)[k] == NewPositions(seen, rest)[k - d] + 1;
      assert FilterNew(seen, fetched)[k] == FilterNew(seen, rest)[k - d];
    }
  }

  lemma {:induction false} NewPositionsExact(seen: seq<string>, fetched: seq<Sighting>)
    ensures forall j :: 0 <= j < |fetched| ==>
      (j in NewPositions(seen, fetched) <==> Key(fetched[j]) !in seen)
  {
    if fetched != [] {
      var rest := fetched[1..];
      NewPositionsExact(seen, rest);
      var tail := NewPositions(seen, rest);
      forall j | 0 <= j < |fetched|
        ensures j in NewPositions(seen, fetched) <==> Key(fetched[j]) !in seen
      {
        ShiftMembers(tail, j);
        if j > 0 {
          assert fetched[j] == rest[j - 1];
        }
      }
    }
  }

  /** The filter keeps order: its result is `fetched` read at strictly
      increasing positions `idx`, and those positions are exactly the ones
      holding a sighting whose key is not in `seen`, duplicates included. */
  lemma FilterNewPositions(seen: seq<string>, fetched: seq<Sighting>) returns (idx: seq<nat>)
    ensures |idx| == |FilterNew(seen, fetched)|
    ensures StrictlyIncreasing(idx)
    ensures forall k :: 0 <= k < |idx| ==>
      idx[k] < |fetched| && FilterNew(seen, fetched)[k] == fetched[idx[k]]
    ensures forall j :: 0 <= j < |fetched| ==> (j in idx <==> Key(fetched[j]) !in seen)
  {
    idx := NewPositions(seen, fetched);
    NewPositionsIncreasing(seen, fetched);
    NewPositionsCount(seen, fetched);
    forall k | 0 <= k < |idx| ensures idx[k] < |fetched| && FilterNew(seen, fetched)[k] == fetched[idx[k]] {
      NewPositionAt(seen, fetched, k);
    }
    NewPositionsExact(seen, fetched);
  }

  /** The first `MaxSeen` entries of `s` (JavaScript's `s.slice(0, 100)`). */
  function Capped<T>(s: seq<T>): (r: seq<T>)
    ensures |r| == Min(MaxSeen, |s|)
    ensures r == s[..|r|]
  {
    s[..Min(MaxSeen, |s|)]
  }

  /** Capping `a + b` keeps all of a short `a` and then a prefix of `b`. */
  lemma CappedConcat<T>(a: seq<T>, b: seq<T>)
    requires |a| <= MaxSeen
    ensures Capped(a + b)[..|a|] == a
    ensures Capped(a + b)[|a|..] == b[..Min(MaxSeen - |a|, |b|)]
  {
    var r := Capped(a + b);
    assert r[..|a|] == (a + b)[..|a|];
    assert r[|a|..] == (a + b)[|a|..|r|];
  }

  /** The seen list after a poll: the keys of the new sightings in fetch order,
      then the previous list, cut to its first `MaxSeen` entries. */
  function UpdateSeen(seen: seq<string>, newOnes: seq<Sighting>): (r: seq<string>)
    ensures |r| == Min(MaxSeen, |newOnes| + |seen|)
    ensures |r| <= MaxSeen
  {
    Capped(Keys(newOnes) + seen)
  }

  /** The new keys take the front of the updated list, in fetch order, and
      what follows them is the oldest-dropped prefix of the previous list. */
  lemma UpdateSeenLayout(seen: seq<string>, newOnes: seq<Sighting>)
    requires |newOnes| <= MaxSeen
    ensures UpdateSeen(seen, newOnes)[..|newOnes|] == Keys(newOnes)
    ensures UpdateSeen(seen, newOnes)[|newOnes|..] == seen[..Min(MaxSeen - |newOnes|, |seen|)]
  {
    CappedConcat(Keys(newOnes), seen);
  }

  /** More than `MaxSeen` new sightings leave only the first `MaxSeen` keys. */
  lemma UpdateSeenOverflow(seen: seq<string>, newOnes: seq<Sighting>)
    requires |newOnes| > MaxSeen
    ensures UpdateSeen(seen, newOnes) == Keys(newOnes[..MaxSeen])
  {
  }

  /** The key of each of at most `MaxSeen` new sightings is in the updated list. */
  lemma NewKeyKept(seen: seq<string>, newOnes: seq<Sighting>, j: nat)
    requires |newOnes| <= MaxSeen && j < |newOnes|
    ensures Key(newOnes[j]) in UpdateSeen(seen, newOnes)
  {
    UpdateSeenLayout(seen, newOnes);
    assert UpdateSeen(seen, newOnes)[j] == Keys(newOnes)[j];
  }

  /** An old key survives when it sits before the cut. */
  lemma OldKeyKept(seen: seq<string>, newOnes: seq<Sighting>, i: nat)
    requires i < |seen| && i + |newOnes| < MaxSeen
    ensures seen[i] in UpdateSeen(seen, newOnes)
  {
    UpdateSeenLayout(seen, newOnes);
    var m := Min(MaxSeen - |newOnes|, |seen|);
    assert seen[..m][i] == seen[i];
    assert UpdateSeen(seen, newOnes)[|newOnes| + i] == seen[i];
  }

  /** Re-filtering the same fetch against the updated list finds nothing new,
      provided there were at most `MaxSeen` new sightings and every already
      seen key that recurs in the fetch lies in the part of the old list that
      survives the cut. */
  lemma RefilterFindsNothing(seen: seq<string>, fetched: seq<Sighting>)
    requires |FilterNew(seen, fetched)| <= MaxSeen
    requires forall i :: 0 <= i < |seen| && seen[i] in Keys(fetched) ==>
      i + |FilterNew(seen, fetched)| < MaxSeen
    ensures FilterNew(UpdateSeen(seen, FilterNew(seen, fetched)), fetched) == []
  {
    var updated := UpdateSeen(seen, FilterNew(seen, fetched));
    forall b | b in fetched ensures Key(b) in updated {
      FetchedKeyKept(seen, fetched, b);
    }
    FilterNewEmpty(updated, fetched);
  }

  /** One fetched sighting's key is in the updated list, under the
      provisos of `RefilterFindsNothing`. */
  lemma FetchedKeyKept(seen: seq<string>, fetched: seq<Sighting>, b: Sighting)
    requires |FilterNew(seen, fetched)| <= MaxSeen
    requires forall i :: 0 <= i < |seen| && seen[i] in Keys(fetched) ==>
      i + |FilterNew(seen, fetched)| < MaxSeen
    requires b in fetched
    ensures Key(b) in UpdateSeen(seen, FilterNew(seen, fetched))
  {
    var newOnes := FilterNew(seen, fetched);
    if Key(b) in seen {
      var j :| 0 <= j < |fetched| && fetched[j] == b;
      assert Keys(fetched)[j] == Key(b);
      var i :| 0 <= i < |seen| && seen[i] == Key(b);
      OldKeyKept(seen, newOnes, i);
    } else {
      assert b in newOnes;
      var j :| 0 <= j < |newOnes| && newOnes[j] == b;
      NewKeyKept(seen, newOnes, j);
    }
  }

  /** In particular nothing is found again while the old list and the new
      sightings together fit in `MaxSeen` entries. */
  lemma RefilterFindsNothingWhenRoomy(seen: seq<string>, fetched: seq<Sighting>)
    requires |FilterNew(seen, fetched)| + |seen| <= MaxSeen
    ensures FilterNew(UpdateSeen(seen, FilterNew(seen, fetched)), fetched) == []
  {
    RefilterFindsNothing(seen, fetched);
  }

  /** Without that proviso the cut can drop a key that the same fetch still
      carries: with a full list whose last key recurs, and one new sighting,
      the recurring sighting is reported again on the next poll. */
  lemma RefilterCanFindAgain()
    ensures var older := Sighting("amecro", "American Crow", "Park", "2024-01-01 10:00");
            var newer := Sighting("norcar", "Northern Cardinal", "Park", "2024-01-02 09:30");
            var seen := seq(MaxSeen - 1, _ => "x-0") + [Key(older)];
            var fetched := [newer, older];
            FilterNew(seen, fetched) == [newer] &&
            FilterNew(UpdateSeen(seen, FilterNew(seen, fetched)), fetched) == [older]
  {
    var older := Sighting("amecro", "American Crow", "Park", "2024-01-01 10:00");
    var newer := Sighting("norcar", "Northern Cardinal", "Park", "2024-01-02 09:30");
    var seen := seq(MaxSeen - 1, _ => "x-0") + [Key(older)];
    var fetched := [newer, older];
    assert Key(newer)[0] == 'n' && Key(older)[0] == 'a' && "x-0"[0] == 'x';
    assert Key(newer) !in seen;
    assert Key(older) in seen;
    assert FilterNew(seen, fetched) == [newer];
    var updated := UpdateSeen(seen, [newer]);
    assert updated == [Key(newer)] + seq(MaxSeen - 1, _ => "x-0");
    assert Key(older) !in updated;
    assert Key(newer) in updated;
    assert FilterNew(updated, [older]) == [older];
    assert FilterNew(updated, fetched) == [older];
  }
}
