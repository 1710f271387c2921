/**
  The users and messages tables (server/src/database.cpp), and what a history query returns.
*/
module Database {
  const ROOM: string := "__room__"
  const MAX_HISTORY: int := 200

  datatype Row = Row(from: string, to: string, content: string, timestamp: int)

  /** What a query returns of a row. */
  datatype Item = Item(from: string, content: string, timestamp: int)

  // ---------------------------------------------------------------- selecting

  /** The WHERE clause of the two history statements. */
  predicate Matches(r: Row, requestor: string, target: string) {
    if target == ROOM then r.to == ROOM
    else (r.from == requestor && r.to == target) || (r.from == target && r.to == requestor)
  }

  function Select(rows: seq<Row>, requestor: string, target: string): seq<Item> {
    if rows == [] then []
    else
      var front := Select(rows[..|rows| - 1], requestor, target);
      var r := rows[|rows| - 1];
      if Matches(r, requestor, target) then front + [Item(r.from, r.content, r.timestamp)] else front
  }

  /** Both participants of a private conversation select the same rows. */
  lemma {:induction false} SelectIsSymmetric(rows: seq<Row>, a: string, b: string)
    requires a != ROOM && b != ROOM
    ensures Select(rows, a, b) == Select(rows, b, a)
    decreases |rows|
  {
    if rows != [] {
      SelectIsSymmetric(rows[..|rows| - 1], a, b);
    }
  }

  /** Everybody selects the same room rows. */
  lemma {:induction false} RoomIsShared(rows: seq<Row>, a: string, b: string)
    ensures Select(rows, a, ROOM) == Select(rows, b, ROOM)
    decreases |rows|
  {
    if rows != [] {
      RoomIsShared(rows[..|rows| - 1], a, b);
    }
  }

  /** What one more stored row adds to a query: itself when it is the room's and the room is
      asked for, or when it went from one of the two names to the other; nothing otherwise. */
  lemma SelectGrows(rows: seq<Row>, r: Row, a: string, b: string)
    ensures Select([], a, b) == []
    ensures Select(rows + [r], a, b) ==
      if (b == "__room__" && r.to == "__room__")
         || (b != "__room__" && ((r.from == a && r.to == b) || (r.from == b && r.to == a))) then
        Select(rows, a, b) + [Item(r.from, r.content, r.timestamp)]
      else Select(rows, a, b)
  {
    assert (rows + [r])[..|rows|] == rows;
  }

  lemma Snoc(rows: seq<Row>)
    requires rows != []
    ensures rows[..|rows| - 1] + [rows[|rows| - 1]] == rows
  {
  }

  /** Where a selected item comes from. */
  lemma {:induction false} SelectedFrom(rows: seq<Row>, a: string, b: string, item: Item) returns (r: Row)
    requires item in Select(rows, a, b)
    ensures r in rows && Item(r.from, r.content, r.timestamp) == item
    ensures if b == "__room__" then r.to == "__room__" else (r.from == a && r.to == b) || (r.from == b && r.to == a)
    decreases |rows|
  {
    var front, last := rows[..|rows| - 1], rows[|rows| - 1];
    Snoc(rows);
    SelectGrows(front, last, a, b);
    hide Select;
    r := last;
    if item in Select(front, a, b) {
      r := SelectedFrom(front, a, b, item);
    }
  }

  /** Every row of the conversation is selected. */
  lemma {:induction false} SelectHas(rows: seq<Row>, r: Row, a: string, b: string)
    requires r in rows
    requires if b == "__room__" then r.to == "__room__" else (r.from == a && r.to == b) || (r.from == b && r.to == a)
    ensures Item(r.from, r.content, r.timestamp) in Select(rows, a, b)
    decreases |rows|
  {
    var front, last := rows[..|rows| - 1], rows[|rows| - 1];
    Snoc(rows);
    SelectGrows(front, last, a, b);
    hide Select;
    if r in front {
      SelectHas(front, r, a, b);
    }
  }

  // ---------------------------------------------------------------- the newest window

  ghost predicate Ascending(s: seq<Item>) {
    forall i, j :: 0 <= i < j < |s| ==> s[i].timestamp <= s[j].timestamp
  }

  ghost predicate Descending(s: seq<Item>) {
    forall i, j :: 0 <= i < j < |s| ==> s[i].timestamp >= s[j].timestamp
  }

  function Min(a: int, b: int): int {
    if a < b then a else b
  }

  ghost predicate SqlInner(rows: seq<Item>, inner: seq<Item>) {
    multiset(inner) == multiset(rows) && Descending(inner)
  }

  /** What the nested SELECT may return: order by time descending, cut at the limit, order
      what is left ascending; equal times in any order, both times. */
  ghost predicate SqlAnswer(rows: seq<Item>, k: nat, answer: seq<Item>) {
    Ascending(answer)
    && exists inner: seq<Item> :: SqlInner(rows, inner) && multiset(answer) == multiset(inner[..Min(k, |inner|)])
  }

  /** No element of `newer` is older than one of `older`. */
  ghost predicate Newer(newer: multiset<Item>, older: multiset<Item>) {
    forall x: Item, y: Item :: x in older && y in newer ==> x.timestamp <= y.timestamp
  }

  /** The newest `k` rows, oldest first: no row left out is newer than one returned. */
  ghost predicate NewestWindow(rows: seq<Item>, k: nat, answer: seq<Item>) {
    && |answer| == Min(k, |rows|)
    && Ascending(answer)
    && multiset(answer) <= multiset(rows)
    && Newer(multiset(answer), multiset(rows) - multiset(answer))
  }

  lemma Parts(s: seq<Item>, n: nat)
    requires n <= |s|
    ensures multiset(s) - multiset(s[..n]) == multiset(s[n..]) && multiset(s[..n]) <= multiset(s)
  {
    assert s == s[..n] + s[n..];
  }

  lemma SameLength(a: seq<Item>, b: seq<Item>)
    requires multiset(a) == multiset(b)
    ensures |a| == |b|
  {
    assert |multiset(a)| == |a| && |multiset(b)| == |b|;
  }

  lemma CutDescending(s: seq<Item>, n: nat)
    requires n <= |s| && Descending(s)
    ensures Newer(multiset(s[..n]), multiset(s[n..]))
  {
    forall x: Item, y: Item | x in multiset(s[n..]) && y in multiset(s[..n]) ensures x.timestamp <= y.timestamp {
      var i :| n <= i < |s| && s[i] == x;
      var j :| 0 <= j < n && s[j] == y;
      assert j < i;
    }
  }

  lemma JoinDescending(a: seq<Item>, b: seq<Item>)
    requires Descending(a) && Descending(b) && Newer(multiset(a), multiset(b))
    ensures Descending(a + b)
  {
    forall i, j | 0 <= i < j < |a + b| ensures (a + b)[i].timestamp >= (a + b)[j].timestamp {
      if i < |a| <= j {
        assert a[i] in multiset(a) && b[j - |a|] in multiset(b);
      }
    }
  }

  lemma CutDescends(s: seq<Item>, n: nat)
    requires n <= |s| && Descending(s)
    ensures Descending(s[..n])
  {
  }

  /** Every answer of the query is a newest window. */
  lemma AnswerIsNewest(rows: seq<Item>, k: nat, answer: seq<Item>)
    requires SqlAnswer(rows, k, answer)
    ensures NewestWindow(rows, k, answer)
  {
    hide Ascending, Descending;
    var inner: seq<Item> :| SqlInner(rows, inner) && multiset(answer) == multiset(inner[..Min(k, |inner|)]);
    var n := Min(k, |inner|);
    SameLength(inner, rows);
    SameLength(answer, inner[..n]);
    Parts(inner, n);
    CutDescending(inner, n);
    hide Newer;
  }

  /** The newest `k`, told by its members: as many as there are up to `k`, in ascending time,
      and what is left out is no newer than anything returned. */
  lemma WindowMeaning(rows: seq<Item>, k: nat, answer: seq<Item>)
    requires NewestWindow(rows, k, answer)
    ensures |answer| == (if |rows| <= k then |rows| else k)
    ensures forall i, j :: 0 <= i < j < |answer| ==> answer[i].timestamp <= answer[j].timestamp
    ensures multiset(answer) <= multiset(rows)
    ensures forall x: Item, y: Item ::
      x in multiset(rows) - multiset(answer) && y in answer ==> x.timestamp <= y.timestamp
  {
    assert forall y: Item :: y in answer ==> y in multiset(answer);
  }

  lemma AllOrFewer(big: multiset<Item>, small: multiset<Item>)
    requires small <= big && |small| == |big|
    ensures small == big
  {
    assert big == small + (big - small);
  }

  /** A row is in the newest window, or that is full of rows no older. */
  lemma WindowHas(rows: seq<Item>, k: nat, answer: seq<Item>, x: Item)
    requires NewestWindow(rows, k, answer) && x in rows
    ensures x in answer || (|answer| == k && forall y <- answer :: y.timestamp >= x.timestamp)
  {
    WindowMeaning(rows, k, answer);
    hide NewestWindow;
    assert x in multiset(rows);
    if |rows| <= k {
      AllOrFewer(multiset(rows), multiset(answer));
      assert x in multiset(answer);
    } else if x !in answer {
      assert x !in multiset(answer);
    }
  }

  function Reverse(s: seq<Item>): seq<Item> {
    if s == [] then [] else Reverse(s[1..]) + [s[0]]
  }

  lemma {:induction false} ReverseMeaning(s: seq<Item>)
    ensures |Reverse(s)| == |s| && multiset(Reverse(s)) == multiset(s)
    ensures forall i :: 0 <= i < |s| ==> Reverse(s)[i] == s[|s| - 1 - i]
    decreases |s|
  {
    if s != [] {
      assert s == [s[0]] + s[1..];
      ReverseMeaning(s[1..]);
    }
  }

  lemma ReverseDescends(s: seq<Item>)
    requires Ascending(s)
    ensures Descending(Reverse(s))
  {
    ReverseMeaning(s);
  }

  /** `x` put in front of the first element that is older. */
  function Insert(s: seq<Item>, x: Item): seq<Item> {
    if s == [] || s[0].timestamp < x.timestamp then [x] + s else [s[0]] + Insert(s[1..], x)
  }

  lemma {:induction false} InsertAdds(s: seq<Item>, x: Item)
    ensures multiset(Insert(s, x)) == multiset(s) + multiset{x}
    decreases |s|
  {
    if s != [] && s[0].timestamp >= x.timestamp {
      InsertAdds(s[1..], x);
      assert s == [s[0]] + s[1..];
    }
  }

  lemma TailDescends(s: seq<Item>)
    requires s != [] && Descending(s)
    ensures Descending(s[1..]) && Descending([s[0]])
  {
  }

  lemma {:induction false} InsertDescends(s: seq<Item>, x: Item)
    requires Descending(s)
    ensures Descending(Insert(s, x))
    decreases |s|
  {
    if s != [] && s[0].timestamp >= x.timestamp {
      var tail := Insert(s[1..], x);
      CutDescending(s, 1);
      assert s[..1] == [s[0]];
      TailDescends(s);
      hide Descending, Insert;
      InsertDescends(s[1..], x);
      InsertAdds(s[1..], x);
      JoinDescending([s[0]], tail);
    }
  }

  lemma {:induction false} Listed(m: multiset<Item>) returns (s: seq<Item>)
    ensures multiset(s) == m && Descending(s)
    decreases |m|
  {
    s := [];
    if m != multiset{} {
      var x :| x in m;
      s := Listed(m - multiset{x});
      InsertAdds(s, x);
      InsertDescends(s, x);
      s := Insert(s, x);
    }
  }

  /** Every newest window is an answer the query may give. */
  lemma NewestIsAnswer(rows: seq<Item>, k: nat, answer: seq<Item>)
    requires NewestWindow(rows, k, answer)
    ensures SqlAnswer(rows, k, answer)
  {
    var older := Listed(multiset(rows) - multiset(answer));
    ReverseMeaning(answer);
    ReverseDescends(answer);
    var inner := Reverse(answer) + older;
    hide Ascending, Descending, Newer, Reverse;
    JoinDescending(Reverse(answer), older);
    assert multiset(inner) == multiset(rows);
    SameLength(inner, rows);
    assert inner[..Min(k, |inner|)] == Reverse(answer);
    assert SqlInner(rows, inner);
  }

  lemma ReverseAscends(s: seq<Item>)
    requires Descending(s)
    ensures Ascending(Reverse(s))
  {
    ReverseMeaning(s);
  }

  /** The first rows of the inner SELECT, turned round, are an answer. */
  lemma CutIsNewest(rows: seq<Item>, k: nat, sorted: seq<Item>)
    requires SqlInner(rows, sorted)
    ensures NewestWindow(rows, k, Reverse(sorted[..Min(k, |sorted|)]))
  {
    var n := Min(k, |sorted|);
    ReverseMeaning(sorted[..n]);
    CutDescends(sorted, n);
    ReverseAscends(sorted[..n]);
    hide Ascending, Descending, NewestWindow, Reverse;
    assert SqlInner(rows, sorted);
    AnswerIsNewest(rows, k, Reverse(sorted[..n]));
  }

  // ---------------------------------------------------------------- the tables

  function Clamp(limit: int): nat {
    if limit < 1 then 1 else if limit > MAX_HISTORY then MAX_HISTORY else limit
  }

  lemma {:induction false} ReverseSnoc(s: seq<Item>, x: Item)
    ensures Reverse(s + [x]) == [x] + Reverse(s)
    decreases |s|
  {
    if s != [] {
      assert (s + [x])[1..] == s[1..] + [x];
      ReverseSnoc(s[1..], x);
    }
  }

  lemma ClampMeaning(limit: int)
    ensures 1 <= limit <= 200 ==> Clamp(limit) == limit
    ensures limit < 1 ==> Clamp(limit) == 1
    ensures limit > 200 ==> Clamp(limit) == 200
  {
  }

  class Database {
    var users: map<string, string>
    var messages: seq<Row>

    constructor ()
      ensures users == map[] && messages == []
    {
      users, messages := map[], [];
    }

    /** INSERT OR IGNORE; whether a row was added. */
    method RegisterUser(username: string, passwordHash: string) returns (added: bool)
      modifies this`users
      ensures added <==> username != "" && username !in old(users)
      ensures users == if added then old(users)[username := passwordHash] else old(users)
    {
      if username == "" {
        return false;
      }
      if username in users {
        return false;
      }
      users := users[username := passwordHash];
      added := true;
    }

    /** The empty string when there is no such user. */
    method GetStoredHash(username: string) returns (stored: string)
      ensures stored == if username in users then users[username] else ""
    {
      stored := "";
      if username in users {
        stored := users[username];
      }
    }

    method StoreMessage(from: string, to: string, content: string, timestamp: int)
      modifies this`messages
      ensures messages == old(messages) + [Row(from, to, content, timestamp)]
    {
      messages := messages + [Row(from, to, content, timestamp)];
    }

    /** One of the answers the query may give. */
    method GetHistory(requestor: string, target: string, limit: int) returns (result: seq<Item>)
      ensures NewestWindow(Select(messages, requestor, target), Clamp(limit), result)
    {
      var sorted := Sorted(requestor, target);
      var n := if Clamp(limit) < |sorted| then Clamp(limit) else |sorted|;
      result := [];
      var i := 0;
      while i < n
        invariant 0 <= i <= n
        invariant result == Reverse(sorted[..i])
      {
        result := [sorted[i]] + result;
        ReverseSnoc(sorted[..i], sorted[i]);
        assert sorted[..i + 1] == sorted[..i] + [sorted[i]];
        i := i + 1;
      }
      CutIsNewest(Select(messages, requestor, target), Clamp(limit), sorted);
    }

    /** SELECT ... ORDER BY timestamp DESC. */
    method Sorted(requestor: string, target: string) returns (sorted: seq<Item>)
      ensures SqlInner(Select(messages, requestor, target), sorted)
    {
      sorted := [];
      var i := 0;
      while i < |messages|
        invariant 0 <= i <= |messages|
        invariant SqlInner(Select(messages[..i], requestor, target), sorted)
      {
        var r := messages[i];
        assert messages[..i + 1][..i] == messages[..i];
        if Matches(r, requestor, target) {
          InsertAdds(sorted, Item(r.from, r.content, r.timestamp));
          InsertDescends(sorted, Item(r.from, r.content, r.timestamp));
          sorted := Insert(sorted, Item(r.from, r.content, r.timestamp));
        }
        i := i + 1;
      }
      assert messages[..|messages|] == messages;
    }
  }
}
