/** Room rosters as the chat server keeps them in Redis: one list of display
    names per room, stored under the key `room:<roomId>`, manipulated only with
    `RPUSH` (append at the tail) and `LREM key 1 v` (drop the first occurrence). */
module Presence {

  /** The entry `createRoom` pushes so that a freshly created room's list is not
      empty; the first real join removes one copy of it. */
  const Placeholder: string := "__placeholder__"

  /** The TTL, in seconds, that a join which adds a name sets on the room's key. */
  const RoomTtlSeconds: int := 86400

  /** The Redis key of a room's roster. */
  function RoomKey(roomId: string): string
  {
    "room:" + roomId
  }

  /** Distinct rooms never share a key, so touching one room's list leaves every
      other room's list alone. */
  lemma RoomKeyInjective(a: string, b: string)
    ensures RoomKey(a) == RoomKey(b) ==> a == b
  {
    if RoomKey(a) == RoomKey(b) {
      assert a == RoomKey(a)[5..];
      assert b == RoomKey(b)[5..];
    }
  }

  /** `LREM key 1 x`: the list without the first occurrence of `x`, counting
      from the head; the list itself when `x` does not occur. */
  function RemoveFirst<T(==)>(s: seq<T>, x: T): (r: seq<T>)
    ensures |r| == if x in s then |s| - 1 else |s|
  {
    if s == [] then []
    else if s[0] == x then s[1..]
    else [s[0]] + RemoveFirst(s[1..], x)
  }

  /** `RemoveFirst` takes exactly one `x` out of the list when there is one. */
  lemma {:induction false} RemoveFirstCounts<T>(s: seq<T>, x: T)
    ensures multiset(RemoveFirst(s, x)) == multiset(s) - multiset{x}
  {
    if s != [] {
      assert s == [s[0]] + s[1..];
      if s[0] != x {
        RemoveFirstCounts(s[1..], x);
      }
    }
  }

  /** An element that does not occur leaves the list as it is. */
  lemma {:induction false} RemoveFirstAbsent<T>(s: seq<T>, x: T)
    requires x !in s
    ensures RemoveFirst(s, x) == s
  {
    if s != [] {
      RemoveFirstAbsent(s[1..], x);
      assert s == [s[0]] + s[1..];
    }
  }

  /** When `i` is the first position holding `x`, `RemoveFirst` deletes exactly
      that element and keeps the order of everything else. */
  lemma {:induction false} RemoveFirstAt<T>(s: seq<T>, x: T, i: nat)
    requires i < |s| && s[i] == x && x !in s[..i]
    ensures RemoveFirst(s, x) == s[..i] + s[i + 1..]
  {
    if i == 0 {
      assert s[..0] + s[1..] == s[1..];
    } else {
      assert s[0] in s[..i];
      var t := s[1..];
      assert t[..i - 1] == s[1..i];
      assert x !in t[..i - 1];
      RemoveFirstAt(t, x, i - 1);
      assert RemoveFirst(s, x) == [s[0]] + (t[..i - 1] + t[i..]);
      assert s[..i] == [s[0]] + t[..i - 1];
      assert s[i + 1..] == t[i..];
    }
  }

  /** The roster invariant: no display name other than the placeholder occurs
      twice in a room's list. */
  ghost predicate NamesUnique(roster: seq<string>)
  {
    forall name :: name != Placeholder ==> multiset(roster)[name] <= 1
  }

  /** The roster invariant over every key of the store. */
  ghost predicate RostersUnique(store: map<string, seq<string>>)
  {
    forall k :: k in store ==> NamesUnique(store[k])
  }

  /** Storing a roster that keeps the invariant under one key keeps it for the
      whole store. */
  lemma RostersUniqueAfterUpdate(store: map<string, seq<string>>, key: string, roster: seq<string>)
    requires RostersUnique(store) && NamesUnique(roster)
    ensures RostersUnique(store[key := roster])
  {
  }

  /** The list a `joinRoom` leaves behind in a room whose list was non-empty: an
      absent name drops one placeholder and is appended at the tail, a present
      name changes nothing. */
  function JoinedRoster(roster: seq<string>, name: string): seq<string>
  {
    if name in roster then roster else RemoveFirst(roster, Placeholder) + [name]
  }

  /** `createRoom` appends one more placeholder, which never breaks uniqueness. */
  lemma CreateKeepsNamesUnique(roster: seq<string>)
    requires NamesUnique(roster)
    ensures NamesUnique(roster + [Placeholder])
    ensures multiset(roster + [Placeholder])[Placeholder] == multiset(roster)[Placeholder] + 1
  {
    assert multiset(roster + [Placeholder]) == multiset(roster) + multiset{Placeholder};
  }

  /** A join keeps the roster invariant, and afterwards the joined name (when it
      is a real name) occurs exactly once. */
  lemma JoinKeepsNamesUnique(roster: seq<string>, name: string)
    requires NamesUnique(roster)
    ensures NamesUnique(JoinedRoster(roster, name))
    ensures name != Placeholder ==> multiset(JoinedRoster(roster, name))[name] == 1
  {
    if name !in roster {
      var rest := RemoveFirst(roster, Placeholder);
      RemoveFirstCounts(roster, Placeholder);
      assert multiset(rest + [name]) == multiset(rest) + multiset{name};
      forall y | y != Placeholder
        ensures multiset(rest + [name])[y] <= 1
      {
        assert multiset(rest)[y] == multiset(roster)[y];
      }
    }
  }

  /** A join changes no real name other than the joiner's, and the number of
      placeholders drops by one only when the name was absent and a placeholder
      was there to drop. */
  lemma JoinTouchesOnlyJoinerAndPlaceholder(roster: seq<string>, name: string)
    requires name != Placeholder
    ensures forall y :: y != name && y != Placeholder ==>
      multiset(JoinedRoster(roster, name))[y] == multiset(roster)[y]
    ensures multiset(JoinedRoster(roster, name))[Placeholder] ==
      if name in roster || Placeholder !in roster then multiset(roster)[Placeholder]
      else multiset(roster)[Placeholder] - 1
  {
    if name !in roster {
      var rest := RemoveFirst(roster, Placeholder);
      RemoveFirstCounts(roster, Placeholder);
      assert multiset(rest + [name]) == multiset(rest) + multiset{name};
    }
  }

  /** `leaveRoom` and `disconnect` keep the roster invariant, and a real name
      that occurred at most once is gone afterwards. */
  lemma LeaveKeepsNamesUnique(roster: seq<string>, name: string)
    requires NamesUnique(roster)
    ensures NamesUnique(RemoveFirst(roster, name))
    ensures name != Placeholder ==> name !in RemoveFirst(roster, name)
  {
    var rest := RemoveFirst(roster, name);
    RemoveFirstCounts(roster, name);
    forall y | y != Placeholder
      ensures multiset(rest)[y] <= 1
    {
      assert multiset(rest)[y] <= multiset(roster)[y];
    }
    if name != Placeholder {
      assert multiset(rest)[name] == 0;
    }
  }

  /** Leaving twice under a unique real name is the same as leaving once: the
      second `LREM` finds nothing to remove. */
  lemma LeaveTwiceIsLeaveOnce(roster: seq<string>, name: string)
    requires NamesUnique(roster) && name != Placeholder
    ensures RemoveFirst(RemoveFirst(roster, name), name) == RemoveFirst(roster, name)
  {
    LeaveKeepsNamesUnique(roster, name);
    RemoveFirstAbsent(RemoveFirst(roster, name), name);
  }
}
