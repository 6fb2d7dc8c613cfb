/** Who is notified when a report or a comment is written: the elder's guardian user,
    the center's owner user and every protector user, in that order, with the first
    occurrence of the requester taken out (Python's `list.remove`). */
module Recipients {
  import opened Types
  import opened Schema

  /** The list both `create` views build before removing the requester. */
  function Related(info: ElderInfo, owner: UserId): seq<UserId>
  {
    [info.guardianUser, owner] + info.protectorUsers
  }

  /** Builds the list by appending, as the views do: guardian, center owner, then each
      protector in the order the relation yields them. */
  method CollectRelated(info: ElderInfo, owner: UserId) returns (people: seq<UserId>)
    ensures |people| == 2 + |info.protectorUsers|
    ensures people[0] == info.guardianUser && people[1] == owner
    ensures people[2..] == info.protectorUsers
  {
    people := [];
    people := people + [info.guardianUser];
    people := people + [owner];
    var i := 0;
    while i < |info.protectorUsers|
      invariant 0 <= i <= |info.protectorUsers|
      invariant people == [info.guardianUser, owner] + info.protectorUsers[..i]
    {
      people := people + [info.protectorUsers[i]];
      i := i + 1;
    }
    assert info.protectorUsers[..i] == info.protectorUsers;
  }

  /** The position of the first occurrence of `x` in `s`. */
  function FirstIndex(s: seq<UserId>, x: UserId): (k: nat)
    requires x in s
    ensures k < |s|
  {
    if s[0] == x then 0 else FirstIndex(s[1..], x) + 1
  }

  /** FirstIndex finds `x`, and no earlier position holds it. */
  lemma {:induction false} FirstIndexSpec(s: seq<UserId>, x: UserId)
    requires x in s
    ensures s[FirstIndex(s, x)] == x
    ensures forall j :: 0 <= j < FirstIndex(s, x) ==> s[j] != x
  {
    if s[0] != x {
      FirstIndexSpec(s[1..], x);
      forall j | 0 < j < FirstIndex(s, x)
        ensures s[j] != x
      {
        assert s[j] == s[1..][j - 1];
      }
    }
  }

  /** `s` with its first occurrence of `x` taken out: the effect of `s.remove(x)`. */
  function Without(s: seq<UserId>, x: UserId): seq<UserId>
    requires x in s
  {
    var k := FirstIndex(s, x);
    s[..k] + s[k + 1..]
  }

  /** `people.remove(requester)`: fails when the requester is not in the list, and
      otherwise drops exactly its first occurrence. */
  method RemoveFirst(people: seq<UserId>, requester: UserId) returns (res: Result<seq<UserId>>)
    ensures requester !in people <==> res == Err(NotRecipient)
    ensures requester in people ==> res == Ok(Without(people, requester))
  {
    var i := 0;
    while i < |people| && people[i] != requester
      invariant 0 <= i <= |people|
      invariant forall j :: 0 <= j < i ==> people[j] != requester
    {
      i := i + 1;
    }
    if i == |people| {
      return Err(NotRecipient);
    }
    FirstIndexSpec(people, requester);
    res := Ok(people[..i] + people[i + 1..]);
  }

  /** The removal takes out one element: every entry before the first occurrence keeps
      its position, every entry after it moves up by one. */
  lemma WithoutKeepsOrder(s: seq<UserId>, x: UserId)
    requires x in s
    ensures |Without(s, x)| == |s| - 1
    ensures forall j :: 0 <= j < FirstIndex(s, x) ==> Without(s, x)[j] == s[j]
    ensures forall j :: FirstIndex(s, x) <= j < |s| - 1 ==> Without(s, x)[j] == s[j + 1]
  {
  }

  /** As multisets, the removal takes away one copy of `x` and nothing else: duplicates
      of the requester stay in the list. */
  lemma WithoutMultiset(s: seq<UserId>, x: UserId)
    requires x in s
    ensures multiset(Without(s, x)) == multiset(s) - multiset{x}
  {
    var k := FirstIndex(s, x);
    FirstIndexSpec(s, x);
    assert s == s[..k] + [s[k]] + s[k + 1..];
  }

  /** The requester is still notified exactly when it occurred more than once, e.g. a
      guardian who is also one of the elder's protectors. */
  lemma RequesterStaysIffRepeated(s: seq<UserId>, x: UserId)
    requires x in s
    ensures x in Without(s, x) <==> multiset(s)[x] >= 2
    ensures multiset(Without(s, x))[x] == multiset(s)[x] - 1
  {
    WithoutMultiset(s, x);
    assert x in s ==> multiset(s)[x] >= 1;
  }

  /** Every user other than the requester keeps its number of notifications. */
  lemma OthersKept(s: seq<UserId>, x: UserId, y: UserId)
    requires x in s && y != x
    ensures multiset(Without(s, x))[y] == multiset(s)[y]
    ensures y in Without(s, x) <==> y in s
  {
    WithoutMultiset(s, x);
  }
}
