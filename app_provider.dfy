/** The shared view state of the chat screen (src/context/AppProvider.tsx):
    the sidebar flag and the list of past conversations, which a fetch
    replaces with the returned list sorted newest first.

    The fetch itself is an input (`FetchResponse`); timestamps are the
    integers `new Date(timestamp).getTime()` yields. */
module AppProvider {
  import opened Common

  /** One entry of the conversation list. */
  datatype SessionSummary = SessionSummary(sessionId: string, timestamp: int)

  /** What the history endpoint answered: the status and the `sessions`
      field of the body. */
  datatype FetchResponse = FetchResponse(status: int, sessions: seq<SessionSummary>)

  /** Newest first: timestamps never increase along the list. */
  ghost predicate SortedDesc(s: seq<SessionSummary>) {
    forall i, j :: 0 <= i < j < |s| ==> s[i].timestamp >= s[j].timestamp
  }

  /** The entries of `s` with timestamp `t`, in their order in `s`. A sort is
      stable when this is the same before and after for every `t`. */
  function WithTimestamp(s: seq<SessionSummary>, t: int): (r: seq<SessionSummary>)
    ensures forall i :: 0 <= i < |r| ==> r[i].timestamp == t
  {
    if s == [] then []
    else WithTimestamp(s[..|s| - 1], t) + (if s[|s| - 1].timestamp == t then [s[|s| - 1]] else [])
  }

  /** Inserts `x` into `sorted` after every entry that is at least as new:
      entries older than `x` are skipped from the back. */
  function InsertDesc(sorted: seq<SessionSummary>, x: SessionSummary): seq<SessionSummary>
  {
    if sorted == [] || sorted[|sorted| - 1].timestamp >= x.timestamp then sorted + [x]
    else InsertDesc(sorted[..|sorted| - 1], x) + [sorted[|sorted| - 1]]
  }

  /** The list sorted by timestamp, newest first, equal timestamps in their
      original order: insertion of each entry, left to right. */
  function SortDesc(s: seq<SessionSummary>): seq<SessionSummary>
  {
    if s == [] then [] else InsertDesc(SortDesc(s[..|s| - 1]), s[|s| - 1])
  }

  lemma WithTimestampAppend(s: seq<SessionSummary>, x: SessionSummary, t: int)
    ensures WithTimestamp(s + [x], t) == WithTimestamp(s, t) + (if x.timestamp == t then [x] else [])
  {
    assert (s + [x])[..|s + [x]| - 1] == s;
  }

  lemma {:induction false} InsertDescMultiset(p: seq<SessionSummary>, x: SessionSummary)
    ensures multiset(InsertDesc(p, x)) == multiset(p) + multiset{x}
    decreases |p|
  {
    if p != [] && p[|p| - 1].timestamp < x.timestamp {
      var init, last := p[..|p| - 1], p[|p| - 1];
      assert p == init + [last];
      InsertDescMultiset(init, x);
    }
  }

  lemma {:induction false} InsertDescSorted(p: seq<SessionSummary>, x: SessionSummary)
    requires SortedDesc(p)
    ensures SortedDesc(InsertDesc(p, x))
    decreases |p|
  {
    if p != [] && p[|p| - 1].timestamp < x.timestamp {
      var init, last := p[..|p| - 1], p[|p| - 1];
      assert p == init + [last];
      var q := InsertDesc(init, x);
      InsertDescSorted(init, x);
      InsertDescMultiset(init, x);
      forall i | 0 <= i < |q| ensures q[i].timestamp >= last.timestamp {
        assert q[i] in multiset(q);
        if q[i] != x {
          assert q[i] in multiset(init);
          var k :| 0 <= k < |init| && init[k] == q[i];
          assert p[k] == init[k];
        }
      }
      assert InsertDesc(p, x) == q + [last];
    }
  }

  lemma {:induction false} InsertDescStable(p: seq<SessionSummary>, x: SessionSummary, t: int)
    ensures WithTimestamp(InsertDesc(p, x), t) == WithTimestamp(p, t) + (if x.timestamp == t then [x] else [])
    decreases |p|
  {
    if p == [] || p[|p| - 1].timestamp >= x.timestamp {
      WithTimestampAppend(p, x, t);
    } else {
      var init, last := p[..|p| - 1], p[|p| - 1];
      assert p == init + [last];
      var q := InsertDesc(init, x);
      InsertDescStable(init, x, t);
      assert InsertDesc(p, x) == q + [last];
      WithTimestampAppend(q, last, t);
      WithTimestampAppend(init, last, t);
    }
  }

  /** The sort's three promises: newest first, a permutation of its input,
      and stable (entries with equal timestamps keep their relative order). */
  lemma {:induction false} SortDescCorrect(s: seq<SessionSummary>)
    ensures SortedDesc(SortDesc(s))
    ensures multiset(SortDesc(s)) == multiset(s)
    ensures forall t :: WithTimestamp(SortDesc(s), t) == WithTimestamp(s, t)
  {
    if s != [] {
      var init, last := s[..|s| - 1], s[|s| - 1];
      assert s == init + [last];
      SortDescCorrect(init);
      InsertDescMultiset(SortDesc(init), last);
      InsertDescSorted(SortDesc(init), last);
      forall t ensures WithTimestamp(SortDesc(s), t) == WithTimestamp(s, t) {
        InsertDescStable(SortDesc(init), last, t);
        WithTimestampAppend(init, last, t);
      }
    }
  }

  lemma WithTimestampNonEmpty(s: seq<SessionSummary>, k: int)
    requires 0 <= k < |s|
    ensures WithTimestamp(s, s[k].timestamp) != []
    decreases |s|
  {
    if k < |s| - 1 {
      WithTimestampNonEmpty(s[..|s| - 1], k);
    }
  }

  /** Dropping the last entry of a list drops it from the entries of its
      timestamp, and only there. */
  lemma WithTimestampInit(r: seq<SessionSummary>, t: int)
    requires r != []
    ensures var w := WithTimestamp(r, t);
      if r[|r| - 1].timestamp == t then
        w != [] && w[|w| - 1] == r[|r| - 1] && WithTimestamp(r[..|r| - 1], t) == w[..|w| - 1]
      else WithTimestamp(r[..|r| - 1], t) == w
  {
  }

  /** Two lists sorted newest first that agree on the entries of every
      timestamp end with entries of the same timestamp. */
  lemma LastTimestampsAgree(r1: seq<SessionSummary>, r2: seq<SessionSummary>)
    requires SortedDesc(r1) && SortedDesc(r2) && r1 != [] && r2 != []
    requires forall t :: WithTimestamp(r1, t) == WithTimestamp(r2, t)
    ensures r1[|r1| - 1].timestamp == r2[|r2| - 1].timestamp
  {
    var m1, m2 := r1[|r1| - 1].timestamp, r2[|r2| - 1].timestamp;
    WithTimestampNonEmpty(r1, |r1| - 1);
    WithTimestampNonEmpty(r2, |r2| - 1);
    var w1 := WithTimestamp(r1, m2);
    var w2 := WithTimestamp(r2, m1);
    assert w1 == WithTimestamp(r2, m2) && w2 == WithTimestamp(r1, m1);
    WithTimestampMember(r2, m1, w2[0]);
    WithTimestampMember(r1, m2, w1[0]);
  }

  /** A stable sort newest first has only one possible result: two lists that
      are both sorted newest first and agree on the entries of every
      timestamp are equal. Hence any stable sorting algorithm, such as
      `Array.prototype.sort` with this comparator, yields `SortDesc`. */
  lemma {:induction false} StableSortUnique(r1: seq<SessionSummary>, r2: seq<SessionSummary>)
    requires SortedDesc(r1) && SortedDesc(r2)
    requires forall t :: WithTimestamp(r1, t) == WithTimestamp(r2, t)
    ensures r1 == r2
    decreases |r1| + |r2|
  {
    if r1 == [] && r2 != [] {
      WithTimestampNonEmpty(r2, 0);
    } else if r1 != [] && r2 == [] {
      WithTimestampNonEmpty(r1, 0);
    } else if r1 != [] {
      var init1, init2 := r1[..|r1| - 1], r2[..|r2| - 1];
      var last1, last2 := r1[|r1| - 1], r2[|r2| - 1];
      LastTimestampsAgree(r1, r2);
      WithTimestampInit(r1, last1.timestamp);
      WithTimestampInit(r2, last1.timestamp);
      assert WithTimestamp(r1, last1.timestamp) == WithTimestamp(r2, last1.timestamp);
      assert last1 == last2;
      forall t ensures WithTimestamp(init1, t) == WithTimestamp(init2, t) {
        WithTimestampInit(r1, t);
        WithTimestampInit(r2, t);
        assert WithTimestamp(r1, t) == WithTimestamp(r2, t);
      }
      StableSortUnique(init1, init2);
      assert r1 == init1 + [last1] && r2 == init2 + [last2];
    }
  }

  /** Every entry picked out by `WithTimestamp` comes from the list, so in a
      list sorted newest first it is at least as new as the last entry. */
  lemma WithTimestampMember(s: seq<SessionSummary>, t: int, e: SessionSummary)
    requires SortedDesc(s) && s != []
    requires e in WithTimestamp(s, t)
    ensures t >= s[|s| - 1].timestamp
    decreases |s|
  {
    var init := s[..|s| - 1];
    if e in WithTimestamp(init, t) {
      var k :| 0 <= k < |WithTimestamp(init, t)| && WithTimestamp(init, t)[k] == e;
      WithTimestampFrom(init, t, k);
    }
  }

  lemma WithTimestampFrom(s: seq<SessionSummary>, t: int, k: int)
    requires 0 <= k < |WithTimestamp(s, t)|
    ensures exists i :: 0 <= i < |s| && s[i] == WithTimestamp(s, t)[k]
    decreases |s|
  {
    var init := s[..|s| - 1];
    if k < |WithTimestamp(init, t)| {
      WithTimestampFrom(init, t, k);
      var i :| 0 <= i < |init| && init[i] == WithTimestamp(init, t)[k];
      assert s[i] == init[i];
    } else {
      assert s[|s| - 1] == WithTimestamp(s, t)[k];
    }
  }

  /** One step of the backward scan: an entry older than `x` moves behind
      it. */
  lemma InsertDescStep(p: seq<SessionSummary>, j: int, x: SessionSummary)
    requires 0 < j <= |p| && p[j - 1].timestamp < x.timestamp
    ensures InsertDesc(p[..j], x) + p[j..] == InsertDesc(p[..j - 1], x) + p[j - 1..]
  {
    assert p[..j][..j - 1] == p[..j - 1];
    assert p[j - 1..] == [p[j - 1]] + p[j..];
  }

  /** One swap of the backward scan keeps the array equal to `p` with `x`
      inserted at the scan position, followed by the untouched rest. */
  lemma SwapStep(s: seq<SessionSummary>, p: seq<SessionSummary>, j: int, x: SessionSummary,
                 rest: seq<SessionSummary>)
    requires 0 < j <= |p| && s == p[..j] + [x] + p[j..] + rest
    ensures s[j - 1 := x][j := p[j - 1]] == p[..j - 1] + [x] + p[j - 1..] + rest
  {
    var t := p[..j - 1] + [x] + p[j - 1..] + rest;
    assert |s[j - 1 := x][j := p[j - 1]]| == |t|;
    forall k | 0 <= k < |t| ensures s[j - 1 := x][j := p[j - 1]][k] == t[k] {
      if k < j - 1 {
        assert s[k] == p[k] && t[k] == p[k];
      } else if j < k <= |p| {
        assert s[k] == p[k - 1] && t[k] == p[k - 1];
      } else if k > |p| {
        assert s[k] == rest[k - |p| - 1] && t[k] == rest[k - |p| - 1];
      }
    }
  }

  /** Moves the entry at index `i` back past the older entries before it:
      the inner loop of an insertion sort. */
  method InsertBack(a: array<SessionSummary>, i: int)
    requires 0 <= i < a.Length
    modifies a
    ensures a[..i + 1] == InsertDesc(old(a[..i]), old(a[i]))
    ensures a[i + 1..] == old(a[i + 1..])
  {
    ghost var p := a[..i];
    ghost var rest := a[i + 1..];
    var x := a[i];
    var j := i;
    assert p[..i] == p && p[i..] == [];
    assert a[..] == p[..j] + [x] + p[j..] + rest;
    while j > 0 && a[j - 1].timestamp < x.timestamp
      invariant 0 <= j <= i
      invariant a[..] == p[..j] + [x] + p[j..] + rest
      invariant InsertDesc(p, x) == InsertDesc(p[..j], x) + p[j..]
    {
      InsertDescStep(p, j, x);
      SwapStep(a[..], p, j, x, rest);
      a[j - 1], a[j] := x, a[j - 1];
      j := j - 1;
    }
    assert InsertDesc(p[..j], x) == p[..j] + [x];
    assert a[..] == InsertDesc(p, x) + rest;
    assert a[..i + 1] == a[..][..i + 1];
  }

  /** `sessionData.sort((a, b) => b.timestamp - a.timestamp)` in place: a
      stable insertion sort, newest first. */
  method SortByTimestampDesc(a: array<SessionSummary>)
    modifies a
    ensures a[..] == SortDesc(old(a[..]))
  {
    ghost var input := a[..];
    var i := 0;
    while i < a.Length
      invariant 0 <= i <= a.Length
      invariant a[..i] == SortDesc(input[..i])
      invariant a[i..] == input[i..]
    {
      assert a[i] == input[i];
      InsertBack(a, i);
      assert input[..i + 1][..i] == input[..i];
      i := i + 1;
    }
    assert input[..a.Length] == input;
  }

  /** The list the provider holds after a fetch: cleared when there is no
      user; kept on a status other than 200; otherwise the returned list,
      sorted newest first, stably, as a permutation of what was returned. */
  function NextHistory(current: seq<SessionSummary>, userId: Option<string>, response: FetchResponse)
    : (r: seq<SessionSummary>)
    ensures !Truthy(userId) ==> r == []
    ensures Truthy(userId) && response.status != 200 ==> r == current
    ensures Truthy(userId) && response.status == 200 ==>
      && SortedDesc(r)
      && multiset(r) == multiset(response.sessions)
      && forall t :: WithTimestamp(r, t) == WithTimestamp(response.sessions, t)
  {
    SortDescCorrect(response.sessions);
    if !Truthy(userId) then []
    else if response.status == 200 then SortDesc(response.sessions)
    else current
  }

  /** The provider's state. */
  class AppState {
    var sessionHistory: seq<SessionSummary>
    var isSidebarOpen: bool

    constructor ()
      ensures sessionHistory == [] && !isSidebarOpen
    {
      sessionHistory := [];
      isSidebarOpen := false;
    }

    /** `toggleSidebar()`. */
    method ToggleSidebar()
      modifies this
      ensures isSidebarOpen == !old(isSidebarOpen)
      ensures sessionHistory == old(sessionHistory)
    {
      isSidebarOpen := !isSidebarOpen;
    }

    /** `fetchSessionHistory(userId)` with the fetch's answer as input. */
    method FetchSessionHistory(userId: Option<string>, response: FetchResponse)
      modifies this
      ensures sessionHistory == NextHistory(old(sessionHistory), userId, response)
      ensures isSidebarOpen == old(isSidebarOpen)
    {
      if Truthy(userId) {
        if response.status == 200 {
          var sessionData := new SessionSummary[|response.sessions|](i requires 0 <= i < |response.sessions| => response.sessions[i]);
          assert sessionData[..] == response.sessions;
          SortByTimestampDesc(sessionData);
          sessionHistory := sessionData[..];
        }
      } else {
        sessionHistory := [];
      }
    }
  }

  /** Toggling the sidebar twice restores it. */
  method ToggleTwiceRestores(app: AppState)
    modifies app
    ensures app.isSidebarOpen == old(app.isSidebarOpen)
    ensures app.sessionHistory == old(app.sessionHistory)
  {
    app.ToggleSidebar();
    app.ToggleSidebar();
  }
}
