/**
 * The user's selection list: an ordered sequence of places, newest first,
 * kept free of duplicate ids. Adding prepends a place unless its id is
 * already present; removing keeps, in order, every place whose id differs
 * from the one recorded for deletion.
 */
module Selection {
  import opened Wrappers
  import opened Places

  /** Some element of `s` carries the id `id`. */
  ghost predicate Contains(s: seq<Place>, id: string) {
    exists i :: 0 <= i < |s| && s[i].id == id
  }

  /** No two positions of `s` carry the same id. */
  ghost predicate UniqueIds(s: seq<Place>) {
    forall i, j :: 0 <= i < j < |s| ==> s[i].id != s[j].id
  }

  /** `a` is `b` with some elements dropped and the rest in their original order. */
  ghost predicate IsSubsequence(a: seq<Place>, b: seq<Place>)
    decreases |b|
  {
    if a == [] then true
    else if b == [] then false
    else (a[0] == b[0] && IsSubsequence(a[1..], b[1..])) || IsSubsequence(a, b[1..])
  }

  /** The duplicate test: does any place of `s` have the id `id`? */
  predicate HasId(s: seq<Place>, id: string): (r: bool)
    ensures r <==> Contains(s, id)
  {
    if s == [] then false
    else if s[0].id == id then true
    else HasId(s[1..], id)
  }

  /**
   * Adding a place: when a place with the same id is already listed the
   * list is returned as it is, otherwise the new place goes to the front.
   */
  function AddPlace(s: seq<Place>, p: Place): (r: seq<Place>)
    ensures Contains(s, p.id) ==> r == s
    ensures !Contains(s, p.id) ==> |r| == |s| + 1 && r[0] == p && r[1..] == s
    ensures Contains(r, p.id)
  {
    if HasId(s, p.id) then s else [p] + s
  }

  /** The place id recorded for deletion, if a place was recorded at all. */
  function RecordedId(selected: Option<Place>): Option<string> {
    match selected
    case None => None
    case Some(place) => Some(place.id)
  }

  /**
   * Removing a place: the places whose id differs from `target`, in their
   * original order. An absent target (`None`) equals no id, so it keeps all.
   */
  function RemovePlace(s: seq<Place>, target: Option<string>): (r: seq<Place>)
    ensures |r| <= |s|
    ensures forall i :: 0 <= i < |r| ==> Some(r[i].id) != target
    ensures forall x :: x in r <==> x in s && Some(x.id) != target
  {
    if s == [] then []
    else if Some(s[0].id) != target then [s[0]] + RemovePlace(s[1..], target)
    else RemovePlace(s[1..], target)
  }

  /** A list whose head id is unique and whose tail ids are unique is unique. */
  lemma UniqueCons(p: Place, s: seq<Place>)
    requires UniqueIds(s) && !Contains(s, p.id)
    ensures UniqueIds([p] + s)
  {
    var t := [p] + s;
    forall i, j | 0 <= i < j < |t| ensures t[i].id != t[j].id {
      if i == 0 {
        assert t[j] == s[j - 1];
      } else {
        assert t[i] == s[i - 1] && t[j] == s[j - 1];
      }
    }
  }

  /** Adding never introduces a duplicate id. */
  lemma AddKeepsUnique(s: seq<Place>, p: Place)
    requires UniqueIds(s)
    ensures UniqueIds(AddPlace(s, p))
  {
    if !Contains(s, p.id) {
      UniqueCons(p, s);
    }
  }

  /** Adding the same place twice is the same as adding it once. */
  lemma AddIdempotent(s: seq<Place>, p: Place)
    ensures AddPlace(AddPlace(s, p), p) == AddPlace(s, p)
  {
  }

  /** Removing an id that no place carries, or no id at all, changes nothing. */
  lemma {:induction false} RemoveAbsent(s: seq<Place>, target: Option<string>)
    requires target.None? || !Contains(s, target.value)
    ensures RemovePlace(s, target) == s
  {
    if s != [] {
      RemoveAbsent(s[1..], target);
      assert s == [s[0]] + s[1..];
    }
  }

  /** Removal keeps the surviving places in their original relative order. */
  lemma {:induction false} RemoveIsSubsequence(s: seq<Place>, target: Option<string>)
    ensures IsSubsequence(RemovePlace(s, target), s)
  {
    if s != [] {
      RemoveIsSubsequence(s[1..], target);
      var rest := RemovePlace(s[1..], target);
      if Some(s[0].id) != target {
        assert ([s[0]] + rest)[1..] == rest;
      }
    }
  }

  /** Every element of a subsequence is an element of the sequence it came from. */
  lemma {:induction false} SubsequenceMembers(a: seq<Place>, b: seq<Place>)
    requires IsSubsequence(a, b)
    ensures forall x :: x in a ==> x in b
    decreases |b|
  {
    if a != [] {
      if a[0] == b[0] && IsSubsequence(a[1..], b[1..]) {
        SubsequenceMembers(a[1..], b[1..]);
        forall x | x in a ensures x in b {
          if x != a[0] {
            assert x in a[1..];
            assert x in b[1..];
          }
        }
      } else {
        SubsequenceMembers(a, b[1..]);
      }
    }
  }

  /** The tail of a list with unique ids has unique ids and lacks the head's id. */
  lemma UniqueTail(s: seq<Place>)
    requires s != [] && UniqueIds(s)
    ensures UniqueIds(s[1..]) && !Contains(s[1..], s[0].id)
  {
    forall i, j | 0 <= i < j < |s[1..]| ensures s[1..][i].id != s[1..][j].id {
      assert s[1..][i] == s[i + 1] && s[1..][j] == s[j + 1];
    }
  }

  /** A subsequence of a list with unique ids has unique ids. */
  lemma {:induction false} SubsequenceKeepsUnique(a: seq<Place>, b: seq<Place>)
    requires IsSubsequence(a, b) && UniqueIds(b)
    ensures UniqueIds(a)
    decreases |b|
  {
    if a != [] {
      UniqueTail(b);
      if a[0] == b[0] && IsSubsequence(a[1..], b[1..]) {
        SubsequenceKeepsUnique(a[1..], b[1..]);
        SubsequenceMembers(a[1..], b[1..]);
        forall k | 0 <= k < |a[1..]| ensures a[1..][k].id != a[0].id {
          assert a[1..][k] in b[1..];
        }
        UniqueCons(a[0], a[1..]);
        assert [a[0]] + a[1..] == a;
      } else {
        SubsequenceKeepsUnique(a, b[1..]);
      }
    }
  }

  /** Removal never introduces a duplicate id. */
  lemma RemoveKeepsUnique(s: seq<Place>, target: Option<string>)
    requires UniqueIds(s)
    ensures UniqueIds(RemovePlace(s, target))
  {
    RemoveIsSubsequence(s, target);
    SubsequenceKeepsUnique(RemovePlace(s, target), s);
  }

  /** In a list with unique ids, removing a listed id shortens it by exactly one. */
  lemma {:induction false} RemoveListedShrinksByOne(s: seq<Place>, id: string)
    requires UniqueIds(s) && Contains(s, id)
    ensures |RemovePlace(s, Some(id))| == |s| - 1
  {
    UniqueTail(s);
    if s[0].id == id {
      RemoveAbsent(s[1..], Some(id));
    } else {
      assert Contains(s[1..], id) by {
        var k :| 0 <= k < |s| && s[k].id == id;
        assert s[1..][k - 1].id == id;
      }
      RemoveListedShrinksByOne(s[1..], id);
    }
  }

  /** Removing twice with the same target is the same as removing once. */
  lemma RemoveIdempotent(s: seq<Place>, target: Option<string>)
    ensures RemovePlace(RemovePlace(s, target), target) == RemovePlace(s, target)
  {
    var r := RemovePlace(s, target);
    assert target.None? || !Contains(r, target.value);
    RemoveAbsent(r, target);
  }

  /** Removing a place just added with a new id gives back the list before the add. */
  lemma AddThenRemove(s: seq<Place>, p: Place)
    requires !Contains(s, p.id)
    ensures RemovePlace(AddPlace(s, p), Some(p.id)) == s
  {
    var t := [p] + s;
    assert t[1..] == s;
    RemoveAbsent(s, Some(p.id));
  }
}
