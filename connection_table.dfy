/** The endpoint's process-wide registry as a value: which connections each
    user holds, in the order they were opened, and the presence counter.
    The type of a connection is a parameter; only its identity matters. */
module ConnectionTable {
  import opened StringUtils

  /** `webSocketMap` maps a user id to that user's connections; `onlineCount`
      is the presence counter kept beside it. */
  datatype Table<C> = Table(webSocketMap: map<string, seq<C>>, onlineCount: int)

  /** The registry invariant: no user is kept with an empty list, and the
      presence counter is the number of users in the map. */
  ghost predicate Consistent<C>(t: Table<C>) {
    && (forall u :: u in t.webSocketMap ==> t.webSocketMap[u] != [])
    && t.onlineCount == |t.webSocketMap|
  }

  /** No connection occurs twice in the list. */
  ghost predicate NoDuplicates<C>(s: seq<C>) {
    forall x :: x in s ==> multiset(s)[x] == 1
  }

  /** Every user's list is free of duplicates: what holds when each
      connection is opened once. */
  ghost predicate Distinct<C>(t: Table<C>) {
    forall u :: u in t.webSocketMap ==> NoDuplicates(t.webSocketMap[u])
  }

  /** Position of the first occurrence of `x` in `s`. */
  function IndexOf<C(==)>(s: seq<C>, x: C): (i: nat)
    requires x in s
    ensures i < |s| && s[i] == x && x !in s[..i]
  {
    if s[0] == x then 0 else 1 + IndexOf(s[1..], x)
  }

  /** List.remove(Object) on a list of endpoints (identity equality): the
      first occurrence of `x` is found and the element at that index dropped;
      a list without `x` is left as it is. */
  function RemoveFirst<C(==)>(s: seq<C>, x: C): (r: seq<C>)
    ensures x !in s ==> r == s
    ensures x in s ==> |r| == |s| - 1
    ensures x in s ==> exists i :: 0 <= i < |s| && s[i] == x && x !in s[..i] && r == s[..i] + s[i + 1..]
  {
    if x in s then
      var i := IndexOf(s, x);
      s[..i] + s[i + 1..]
    else
      s
  }

  /** Exactly one occurrence of `x` goes, and nothing else. */
  lemma RemoveFirstMultiset<C>(s: seq<C>, x: C)
    ensures multiset(RemoveFirst(s, x)) == multiset(s) - multiset{x}
  {
    if x in s {
      var i := IndexOf(s, x);
      assert s == s[..i] + [x] + s[i + 1..];
    }
  }

  /** onOpen: an already present user gets the connection appended to its
      list; an absent user gets a one-element list and the counter goes up. */
  function Open<C>(t: Table<C>, userId: string, c: C): (r: Table<C>)
    ensures r.webSocketMap.Keys == t.webSocketMap.Keys + {userId}
    ensures r.webSocketMap[userId] == (if userId in t.webSocketMap then t.webSocketMap[userId] else []) + [c]
    ensures forall u :: u in t.webSocketMap && u != userId ==> r.webSocketMap[u] == t.webSocketMap[u]
    ensures r.onlineCount == t.onlineCount + (if userId in t.webSocketMap then 0 else 1)
  {
    if userId in t.webSocketMap then
      t.(webSocketMap := t.webSocketMap[userId := t.webSocketMap[userId] + [c]])
    else
      Table(t.webSocketMap[userId := [c]], t.onlineCount + 1)
  }

  /** onClose: for a present user the connection is removed from its list;
      an emptied list is deleted with its key and the counter goes down. */
  function Close<C(==)>(t: Table<C>, userId: string, c: C): (r: Table<C>)
    ensures r.webSocketMap.Keys == t.webSocketMap.Keys - (if userId in t.webSocketMap && RemoveFirst(t.webSocketMap[userId], c) == [] then {userId} else {})
    ensures forall u :: u in t.webSocketMap && u != userId ==> r.webSocketMap[u] == t.webSocketMap[u]
    ensures userId in r.webSocketMap ==> r.webSocketMap[userId] == RemoveFirst(t.webSocketMap[userId], c)
    ensures r.onlineCount == t.onlineCount - (if userId in t.webSocketMap && userId !in r.webSocketMap then 1 else 0)
  {
    if userId in t.webSocketMap then
      var rest := RemoveFirst(t.webSocketMap[userId], c);
      if rest == [] then Table(t.webSocketMap - {userId}, t.onlineCount - 1)
      else t.(webSocketMap := t.webSocketMap[userId := rest])
    else
      t
  }

  /** The destination test shared by onMessage and sendInfo: a blank or
      unregistered user id has no connections to send to. */
  function Lookup<C>(t: Table<C>, userId: string): (r: seq<C>)
    ensures !IsBlank(userId) && userId in t.webSocketMap ==> r == t.webSocketMap[userId]
    ensures IsBlank(userId) || userId !in t.webSocketMap ==> r == []
  {
    if !IsBlank(userId) && userId in t.webSocketMap then t.webSocketMap[userId] else []
  }

  /** The registry as it is when the server starts. */
  function Initial<C>(): (t: Table<C>)
    ensures Consistent(t) && Distinct(t)
  {
    Table(map[], 0)
  }

  lemma OpenExisting<C>(t: Table<C>, userId: string, c: C)
    requires userId in t.webSocketMap
    ensures var r := Open(t, userId, c);
      && r.webSocketMap.Keys == t.webSocketMap.Keys
      && r.webSocketMap[userId] == t.webSocketMap[userId] + [c]
      && r.onlineCount == t.onlineCount
      && (forall u :: u in t.webSocketMap && u != userId ==> r.webSocketMap[u] == t.webSocketMap[u])
  {
  }

  lemma OpenAbsent<C>(t: Table<C>, userId: string, c: C)
    requires userId !in t.webSocketMap
    ensures var r := Open(t, userId, c);
      && r.webSocketMap.Keys == t.webSocketMap.Keys + {userId}
      && r.webSocketMap[userId] == [c]
      && r.onlineCount == t.onlineCount + 1
      && (forall u :: u in t.webSocketMap ==> r.webSocketMap[u] == t.webSocketMap[u])
  {
  }

  lemma OpenConsistent<C>(t: Table<C>, userId: string, c: C)
    requires Consistent(t)
    ensures Consistent(Open(t, userId, c))
    ensures Open(t, userId, c).onlineCount >= 0
  {
  }

  /** Removing a listed connection: the key and its count go exactly when
      the connection was the user's only one. */
  lemma CloseListed<C>(t: Table<C>, userId: string, c: C)
    requires userId in t.webSocketMap && c in t.webSocketMap[userId]
    ensures var r := Close(t, userId, c);
      && (forall u :: u in t.webSocketMap && u != userId ==> u in r.webSocketMap && r.webSocketMap[u] == t.webSocketMap[u])
      && (t.webSocketMap[userId] == [c] ==>
            r.webSocketMap.Keys == t.webSocketMap.Keys - {userId} && r.onlineCount == t.onlineCount - 1)
      && (t.webSocketMap[userId] != [c] ==>
            && r.webSocketMap.Keys == t.webSocketMap.Keys
            && r.webSocketMap[userId] == RemoveFirst(t.webSocketMap[userId], c)
            && |r.webSocketMap[userId]| == |t.webSocketMap[userId]| - 1
            && r.onlineCount == t.onlineCount)
  {
  }

  /** Closing is harmless when the user is absent, or when the connection is
      no longer in the user's (non-empty) list. */
  lemma CloseHarmless<C>(t: Table<C>, userId: string, c: C)
    requires userId in t.webSocketMap ==> c !in t.webSocketMap[userId] && t.webSocketMap[userId] != []
    ensures Close(t, userId, c) == t
  {
  }

  lemma CloseConsistent<C>(t: Table<C>, userId: string, c: C)
    requires Consistent(t)
    ensures Consistent(Close(t, userId, c))
    ensures Close(t, userId, c).onlineCount >= 0
  {
  }

  /** Unregistering twice is the same as unregistering once. */
  lemma CloseIdempotent<C>(t: Table<C>, userId: string, c: C)
    requires userId in t.webSocketMap ==> multiset(t.webSocketMap[userId])[c] <= 1
    ensures Close(Close(t, userId, c), userId, c) == Close(t, userId, c)
  {
    if userId in t.webSocketMap {
      var s := t.webSocketMap[userId];
      var rest := RemoveFirst(s, c);
      RemoveFirstMultiset(s, c);
      assert c !in rest by {
        assert multiset(rest)[c] == 0;
      }
      if rest != [] {
        var once := t.(webSocketMap := t.webSocketMap[userId := rest]);
        assert Close(t, userId, c) == once;
        assert RemoveFirst(once.webSocketMap[userId], c) == rest;
        assert once.webSocketMap[userId := rest] == once.webSocketMap;
      }
    }
  }

  lemma RemoveFirstAppend<C>(s: seq<C>, c: C)
    requires c !in s
    ensures RemoveFirst(s + [c], c) == s
  {
    var sc := s + [c];
    assert sc[|s|] == c;
    assert sc[..|s|] == s;
  }

  /** Opening a fresh connection and closing it again restores the registry. */
  lemma CloseUndoesOpen<C>(t: Table<C>, userId: string, c: C)
    requires Consistent(t)
    requires userId in t.webSocketMap ==> c !in t.webSocketMap[userId]
    ensures Close(Open(t, userId, c), userId, c) == t
  {
    if userId in t.webSocketMap {
      RemoveFirstAppend(t.webSocketMap[userId], c);
      assert t.webSocketMap[userId := t.webSocketMap[userId]] == t.webSocketMap;
    } else {
      assert RemoveFirst([c], c) == [];
      assert t.webSocketMap[userId := [c]] - {userId} == t.webSocketMap;
    }
  }

  lemma OpenDistinct<C>(t: Table<C>, userId: string, c: C)
    requires Distinct(t)
    requires userId in t.webSocketMap ==> c !in t.webSocketMap[userId]
    ensures Distinct(Open(t, userId, c))
  {
    var r := Open(t, userId, c);
    forall u | u in r.webSocketMap
      ensures NoDuplicates(r.webSocketMap[u])
    {
      if u == userId {
        var old_s := if userId in t.webSocketMap then t.webSocketMap[userId] else [];
        assert r.webSocketMap[u] == old_s + [c];
        assert multiset(old_s + [c]) == multiset(old_s) + multiset{c};
      }
    }
  }

  lemma CloseDistinct<C>(t: Table<C>, userId: string, c: C)
    requires Distinct(t)
    ensures Distinct(Close(t, userId, c))
  {
    if userId in t.webSocketMap {
      RemoveFirstMultiset(t.webSocketMap[userId], c);
    }
  }

  /** The destination is offline exactly when its id is blank or absent;
      otherwise all of the user's connections are the recipients. */
  lemma LookupOffline<C>(t: Table<C>, userId: string)
    requires Consistent(t)
    ensures Lookup(t, userId) == [] <==> IsBlank(userId) || userId !in t.webSocketMap
    ensures Lookup(t, userId) != [] ==> Lookup(t, userId) == t.webSocketMap[userId]
  {
  }
}
