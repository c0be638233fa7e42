/** The "Combined Conversation" view: every active slot's turns merged into
    one list of stamped entries, sorted by stamp, then rendered with a guard
    that skips indices no longer present. */
module Timeline {
  import opened Archive

  datatype Kind = Question | Answer

  /** One (user_id, i, kind, timestamp) tuple of the merged list. */
  datatype Entry = Entry(userId: nat, turn: nat, kind: Kind, timestamp: nat)

  /** Every roster id indexes the generated list (otherwise the merge loop faults). */
  predicate Indexable(users: seq<nat>, generated: seq<seq<string>>)
  {
    forall j :: 0 <= j < |users| ==> users[j] < |generated|
  }

  /** The entries of the first m turns of slot u, stamped from start on. */
  function TurnEntries(u: nat, m: nat, start: nat): seq<Entry>
    decreases m
  {
    if m == 0 then []
    else TurnEntries(u, m - 1, start)
         + [Entry(u, m - 1, Question, start + 2 * (m - 1)), Entry(u, m - 1, Answer, start + 2 * (m - 1) + 1)]
  }

  /** The merged list after visiting the first n roster entries; each block is
      stamped from the number of entries already emitted. */
  function Combined(users: seq<nat>, generated: seq<seq<string>>, n: nat): seq<Entry>
    requires Indexable(users, generated) && n <= |users|
    decreases n
  {
    if n == 0 then []
    else
      var prev := Combined(users, generated, n - 1);
      prev + TurnEntries(users[n - 1], |generated[users[n - 1]]|, |prev|)
  }

  /** The number of turns of the first n roster entries. */
  function TurnTotal(users: seq<nat>, generated: seq<seq<string>>, n: nat): nat
    requires Indexable(users, generated) && n <= |users|
  {
    if n == 0 then 0 else TurnTotal(users, generated, n - 1) + |generated[users[n - 1]]|
  }

  /** Entry t of a block: turn t/2, a question at even t and an answer at odd t, stamped start + t. */
  lemma {:induction false} TurnEntriesShape(u: nat, m: nat, start: nat)
    ensures |TurnEntries(u, m, start)| == 2 * m
    ensures forall t :: 0 <= t < 2 * m ==>
      TurnEntries(u, m, start)[t] == Entry(u, t / 2, if t % 2 == 0 then Question else Answer, start + t)
    decreases m
  {
    if m > 0 {
      TurnEntriesShape(u, m - 1, start);
      var prev := TurnEntries(u, m - 1, start);
      var all := prev + [Entry(u, m - 1, Question, start + 2 * (m - 1)), Entry(u, m - 1, Answer, start + 2 * (m - 1) + 1)];
      assert all == TurnEntries(u, m, start);
      forall t | 0 <= t < 2 * m
        ensures all[t] == Entry(u, t / 2, if t % 2 == 0 then Question else Answer, start + t)
      {
        if t < 2 * m - 2 {
          assert all[t] == prev[t];
        } else if t == 2 * m - 2 {
          assert t / 2 == m - 1 && t % 2 == 0;
        } else {
          assert t / 2 == m - 1 && t % 2 == 1;
        }
      }
    }
  }

  /** The merged list has two entries per turn; entry t carries stamp t and is
      a question exactly at even t; every entry names a roster id and an
      existing turn. */
  lemma {:induction false} CombinedShape(users: seq<nat>, generated: seq<seq<string>>, n: nat)
    requires Indexable(users, generated) && n <= |users|
    ensures |Combined(users, generated, n)| == 2 * TurnTotal(users, generated, n)
    ensures forall t :: 0 <= t < |Combined(users, generated, n)| ==>
      var e := Combined(users, generated, n)[t];
      e.timestamp == t && (e.kind == Question <==> t % 2 == 0) &&
      e.userId in users[..n] && e.turn < |generated[e.userId]|
    decreases n
  {
    if n > 0 {
      CombinedShape(users, generated, n - 1);
      var prev := Combined(users, generated, n - 1);
      var u := users[n - 1];
      var block := TurnEntries(u, |generated[u]|, |prev|);
      TurnEntriesShape(u, |generated[u]|, |prev|);
      var all := prev + block;
      assert all == Combined(users, generated, n);
      assert users[..n] == users[..n - 1] + [u];
      forall t | 0 <= t < |all|
        ensures all[t].timestamp == t && (all[t].kind == Question <==> t % 2 == 0)
        ensures all[t].userId in users[..n] && all[t].turn < |generated[all[t].userId]|
      {
        if t >= |prev| {
          var i := t - |prev|;
          assert all[t] == block[i];
          assert i % 2 == t % 2;
        } else {
          assert all[t] == prev[t];
          assert prev[t].userId in users[..n - 1];
        }
      }
    }
  }

  /** Every question entry is immediately followed by the answer entry of the
      same slot and turn, stamped one higher. */
  predicate QuestionsAnswered(s: seq<Entry>)
  {
    forall t :: 0 <= t < |s| && t % 2 == 0 ==>
      t + 1 < |s| && s[t + 1] == s[t].(kind := Answer, timestamp := s[t].timestamp + 1)
  }

  lemma QuestionsAnsweredConcat(a: seq<Entry>, b: seq<Entry>)
    requires QuestionsAnswered(a) && QuestionsAnswered(b) && |a| % 2 == 0
    ensures QuestionsAnswered(a + b)
  {
    forall t | |a| <= t < |a + b| && t % 2 == 0
      ensures t + 1 < |a + b| && (a + b)[t + 1] == (a + b)[t].(kind := Answer, timestamp := (a + b)[t].timestamp + 1)
    {
      var i := t - |a|;
      assert i % 2 == 0;
      assert (a + b)[t] == b[i];
      assert (a + b)[t + 1] == b[i + 1];
    }
  }

  lemma TurnEntriesAnswered(u: nat, m: nat, start: nat)
    ensures QuestionsAnswered(TurnEntries(u, m, start))
  {
    var s := TurnEntries(u, m, start);
    TurnEntriesShape(u, m, start);
    forall t | 0 <= t < |s| && t % 2 == 0
      ensures t + 1 < |s| && s[t + 1] == s[t].(kind := Answer, timestamp := s[t].timestamp + 1)
    {
      assert (t + 1) / 2 == t / 2 && (t + 1) % 2 == 1;
    }
  }

  /** Each question is immediately followed by the answer of the same slot and turn. */
  lemma {:induction false} CombinedPairs(users: seq<nat>, generated: seq<seq<string>>, n: nat)
    requires Indexable(users, generated) && n <= |users|
    ensures QuestionsAnswered(Combined(users, generated, n))
    decreases n
  {
    if n > 0 {
      CombinedPairs(users, generated, n - 1);
      CombinedShape(users, generated, n - 1);
      var prev := Combined(users, generated, n - 1);
      var u := users[n - 1];
      TurnEntriesAnswered(u, |generated[u]|, |prev|);
      QuestionsAnsweredConcat(prev, TurnEntries(u, |generated[u]|, |prev|));
    }
  }

  /** Roster ids strictly increasing: every id appears once, in this order. */
  predicate StrictlyIncreasing(users: seq<nat>)
  {
    forall i, j :: 0 <= i < j < |users| ==> users[i] < users[j]
  }

  /** a comes no later than b in (slot, turn) order. */
  predicate NoLater(a: Entry, b: Entry)
  {
    a.userId < b.userId || (a.userId == b.userId && a.turn <= b.turn)
  }

  /** With a roster of increasing ids, the merged list is each slot's whole
      history as one block, blocks in roster order: not a chronological
      interleaving of the users. */
  lemma {:induction false} CombinedInRosterOrder(users: seq<nat>, generated: seq<seq<string>>, n: nat)
    requires Indexable(users, generated) && n <= |users| && StrictlyIncreasing(users)
    ensures forall t1, t2 :: 0 <= t1 <= t2 < |Combined(users, generated, n)| ==>
      NoLater(Combined(users, generated, n)[t1], Combined(users, generated, n)[t2])
    decreases n
  {
    if n > 0 {
      CombinedInRosterOrder(users, generated, n - 1);
      CombinedShape(users, generated, n - 1);
      var prev := Combined(users, generated, n - 1);
      var u := users[n - 1];
      var block := TurnEntries(u, |generated[u]|, |prev|);
      TurnEntriesShape(u, |generated[u]|, |prev|);
      var all := prev + block;
      assert all == Combined(users, generated, n);
      forall t1, t2 | 0 <= t1 <= t2 < |all|
        ensures NoLater(all[t1], all[t2])
      {
        if t2 < |prev| {
          assert all[t1] == prev[t1] && all[t2] == prev[t2];
        } else if t1 < |prev| {
          assert all[t1] == prev[t1];
          assert all[t2] == block[t2 - |prev|];
          var i :| 0 <= i < n - 1 && users[i] == prev[t1].userId;
        } else {
          assert all[t1] == block[t1 - |prev|] && all[t2] == block[t2 - |prev|];
          assert (t1 - |prev|) / 2 <= (t2 - |prev|) / 2;
        }
      }
    }
  }

  /** Sorted by timestamp, as the key of the sort call. */
  predicate SortedByTimestamp(s: seq<Entry>)
  {
    forall i, j :: 0 <= i < j < |s| ==> s[i].timestamp <= s[j].timestamp
  }

  /** Inserts e before the first entry whose timestamp is not smaller. */
  function Insert(e: Entry, s: seq<Entry>): seq<Entry>
  {
    if s == [] || e.timestamp <= s[0].timestamp then [e] + s
    else [s[0]] + Insert(e, s[1..])
  }

  /** A stable sort by timestamp (insertion sort); every stable sort on this key
      gives the same result, so it stands for Python's sorted(key=...). */
  function SortByTimestamp(s: seq<Entry>): seq<Entry>
  {
    if s == [] then [] else Insert(s[0], SortByTimestamp(s[1..]))
  }

  lemma {:induction false} InsertPermutes(e: Entry, s: seq<Entry>)
    ensures multiset(Insert(e, s)) == multiset(s) + multiset{e}
    decreases |s|
  {
    if s != [] && s[0].timestamp < e.timestamp {
      InsertPermutes(e, s[1..]);
      assert s == [s[0]] + s[1..];
    }
  }

  lemma {:induction false} InsertSorted(e: Entry, s: seq<Entry>)
    requires SortedByTimestamp(s)
    ensures |Insert(e, s)| == |s| + 1
    ensures Insert(e, s)[0] == if s == [] || e.timestamp <= s[0].timestamp then e else s[0]
    ensures SortedByTimestamp(Insert(e, s))
    decreases |s|
  {
    if s != [] && s[0].timestamp < e.timestamp {
      var tail := s[1..];
      assert SortedByTimestamp(tail) by {
        forall i, j | 0 <= i < j < |tail| ensures tail[i].timestamp <= tail[j].timestamp {
          assert tail[i] == s[i + 1] && tail[j] == s[j + 1];
        }
      }
      InsertSorted(e, tail);
      var rest := Insert(e, tail);
      assert s[0].timestamp <= rest[0].timestamp by {
        if tail != [] && tail[0].timestamp < e.timestamp {
          assert rest[0] == s[1];
        }
      }
      var r := [s[0]] + rest;
      assert r == Insert(e, s);
      forall i, j | 0 <= i < j < |r|
        ensures r[i].timestamp <= r[j].timestamp
      {
        if i == 0 {
          if j > 1 {
            assert rest[0].timestamp <= rest[j - 1].timestamp;
          }
        } else {
          assert r[i] == rest[i - 1] && r[j] == rest[j - 1];
        }
      }
    }
  }

  /** The sort returns a timestamp-ordered permutation of its input. */
  lemma {:induction false} SortByTimestampCorrect(s: seq<Entry>)
    ensures SortedByTimestamp(SortByTimestamp(s))
    ensures multiset(SortByTimestamp(s)) == multiset(s)
    decreases |s|
  {
    if s != [] {
      SortByTimestampCorrect(s[1..]);
      InsertSorted(s[0], SortByTimestamp(s[1..]));
      InsertPermutes(s[0], SortByTimestamp(s[1..]));
      assert s == [s[0]] + s[1..];
    }
  }

  /** Sorting an already sorted list changes nothing. */
  lemma {:induction false} SortKeepsSorted(s: seq<Entry>)
    requires SortedByTimestamp(s)
    ensures SortByTimestamp(s) == s
    decreases |s|
  {
    if s != [] {
      SortKeepsSorted(s[1..]);
      assert s == [s[0]] + s[1..];
    }
  }

  /** The merge of mb.py lines 170-180: stamp every turn's question and answer with a
      running counter, then sort by the counter. Sorting is a no-op here, so the
      result is the roster-ordered concatenation of the slots' histories. */
  method MergeTimeline(users: seq<nat>, generated: seq<seq<string>>) returns (sorted: seq<Entry>)
    requires Indexable(users, generated)
    ensures sorted == Combined(users, generated, |users|)
  {
    var combined: seq<Entry> := [];
    var timestamp := 0;
    var j := 0;
    while j < |users|
      invariant 0 <= j <= |users|
      invariant combined == Combined(users, generated, j)
      invariant timestamp == |combined|
    {
      var userId := users[j];
      ghost var before := combined;
      var i := 0;
      while i < |generated[userId]|
        invariant 0 <= i <= |generated[userId]|
        invariant combined == before + TurnEntries(userId, i, |before|)
        invariant timestamp == |combined|
        invariant |combined| == |before| + 2 * i
      {
        combined := combined + [Entry(userId, i, Question, timestamp)];
        timestamp := timestamp + 1;
        combined := combined + [Entry(userId, i, Answer, timestamp)];
        timestamp := timestamp + 1;
        i := i + 1;
      }
      j := j + 1;
    }
    CombinedShape(users, generated, |users|);
    SortKeepsSorted(combined);
    sorted := SortByTimestamp(combined);
  }

  /** The slot list an entry indexes exists (the guard checks only the turn index). */
  predicate Addressable(e: Entry, past: seq<seq<string>>, generated: seq<seq<string>>)
  {
    if e.kind == Question then e.userId < |past| else e.userId < |generated|
  }

  predicate Renderable(entries: seq<Entry>, past: seq<seq<string>>, generated: seq<seq<string>>)
  {
    forall j :: 0 <= j < |entries| ==> Addressable(entries[j], past, generated)
  }

  /** The guard: a question is shown while its turn is still in past, an answer while it is still in generated. */
  predicate Shown(e: Entry, past: seq<seq<string>>, generated: seq<seq<string>>)
    requires Addressable(e, past, generated)
  {
    if e.kind == Question then e.turn < |past[e.userId]| else e.turn < |generated[e.userId]|
  }

  /** The text displayed for an entry that passes the guard. */
  function EntryLine(e: Entry, past: seq<seq<string>>, generated: seq<seq<string>>): string
    requires Addressable(e, past, generated) && Shown(e, past, generated)
  {
    if e.kind == Question then "User " + NatToString(e.userId) + ": " + past[e.userId][e.turn]
    else "Bot (for User " + NatToString(e.userId) + "): " + generated[e.userId][e.turn]
  }

  /** The lines displayed for the first n entries; stale entries are skipped. */
  function RenderedUpTo(entries: seq<Entry>, past: seq<seq<string>>, generated: seq<seq<string>>, n: nat): seq<string>
    requires Renderable(entries, past, generated) && n <= |entries|
    decreases n
  {
    if n == 0 then []
    else
      var e := entries[n - 1];
      RenderedUpTo(entries, past, generated, n - 1)
      + (if Shown(e, past, generated) then [EntryLine(e, past, generated)] else [])
  }

  function Rendered(entries: seq<Entry>, past: seq<seq<string>>, generated: seq<seq<string>>): seq<string>
    requires Renderable(entries, past, generated)
  {
    RenderedUpTo(entries, past, generated, |entries|)
  }

  /** The guard never adds lines: at most one line per entry. */
  lemma {:induction false} RenderedAtMost(entries: seq<Entry>, past: seq<seq<string>>, generated: seq<seq<string>>, n: nat)
    requires Renderable(entries, past, generated) && n <= |entries|
    ensures |RenderedUpTo(entries, past, generated, n)| <= n
    decreases n
  {
    if n > 0 {
      RenderedAtMost(entries, past, generated, n - 1);
    }
  }

  /** When every entry's turn still exists, nothing is skipped and line t is entry t's text. */
  lemma {:induction false} RenderedAllShown(entries: seq<Entry>, past: seq<seq<string>>, generated: seq<seq<string>>, n: nat)
    requires Renderable(entries, past, generated) && n <= |entries|
    requires forall j :: 0 <= j < |entries| ==> Shown(entries[j], past, generated)
    ensures |RenderedUpTo(entries, past, generated, n)| == n
    ensures forall t :: 0 <= t < n ==>
      RenderedUpTo(entries, past, generated, n)[t] == EntryLine(entries[t], past, generated)
    decreases n
  {
    if n > 0 {
      RenderedAllShown(entries, past, generated, n - 1);
      var prev := RenderedUpTo(entries, past, generated, n - 1);
      var e := entries[n - 1];
      assert Addressable(e, past, generated) && Shown(e, past, generated);
      var all := prev + [EntryLine(e, past, generated)];
      assert all == RenderedUpTo(entries, past, generated, n);
      forall t | 0 <= t < n
        ensures all[t] == EntryLine(entries[t], past, generated)
      {
        if t < n - 1 {
          assert all[t] == prev[t];
        }
      }
    }
  }

  /** After the histories were emptied (New Chat, or a slot shrunk to nothing), every
      entry whose slot still exists is skipped: rendering such a stale list shows
      nothing and indexes no turn out of range. An entry of a removed slot is
      excluded by Renderable, because the guard checks only the turn index. */
  lemma {:induction false} RenderedAfterReset(entries: seq<Entry>, past: seq<seq<string>>, generated: seq<seq<string>>, n: nat)
    requires Renderable(entries, past, generated) && n <= |entries|
    requires forall k :: 0 <= k < |past| ==> past[k] == []
    requires forall k :: 0 <= k < |generated| ==> generated[k] == []
    ensures RenderedUpTo(entries, past, generated, n) == []
    decreases n
  {
    if n > 0 {
      RenderedAfterReset(entries, past, generated, n - 1);
      var e := entries[n - 1];
      assert Addressable(e, past, generated);
    }
  }

  /** Rendering the timeline merged from the current state, whose slots have as
      many questions as answers, skips nothing: 2 lines per turn, line t the text of entry t. */
  lemma RenderCurrentTimeline(users: seq<nat>, past: seq<seq<string>>, generated: seq<seq<string>>)
    requires Indexable(users, generated) && Indexable(users, past)
    requires forall j :: 0 <= j < |users| ==> |past[users[j]]| == |generated[users[j]]|
    ensures forall t :: 0 <= t < |Combined(users, generated, |users|)| ==>
      Addressable(Combined(users, generated, |users|)[t], past, generated) &&
      Shown(Combined(users, generated, |users|)[t], past, generated)
    ensures |Rendered(Combined(users, generated, |users|), past, generated)|
         == |Combined(users, generated, |users|)| == 2 * TurnTotal(users, generated, |users|)
    ensures forall t :: 0 <= t < |Combined(users, generated, |users|)| ==>
      Rendered(Combined(users, generated, |users|), past, generated)[t]
        == EntryLine(Combined(users, generated, |users|)[t], past, generated)
  {
    var c := Combined(users, generated, |users|);
    CombinedShape(users, generated, |users|);
    forall j | 0 <= j < |c|
      ensures Addressable(c[j], past, generated) && Shown(c[j], past, generated)
    {
      var i :| 0 <= i < |users| && users[i] == c[j].userId;
    }
    RenderedAllShown(c, past, generated, |c|);
  }

  /** The render loop of mb.py lines 184-190 over the sorted list. */
  method RenderConversation(entries: seq<Entry>, past: seq<seq<string>>, generated: seq<seq<string>>)
    returns (shown: seq<string>)
    requires Renderable(entries, past, generated)
    ensures shown == Rendered(entries, past, generated)
  {
    shown := [];
    var j := 0;
    while j < |entries|
      invariant 0 <= j <= |entries|
      invariant shown == RenderedUpTo(entries, past, generated, j)
    {
      var e := entries[j];
      assert Addressable(e, past, generated);
      if e.kind == Question {
        if e.turn < |past[e.userId]| {
          shown := shown + ["User " + NatToString(e.userId) + ": " + past[e.userId][e.turn]];
        }
      } else {
        if e.turn < |generated[e.userId]| {
          shown := shown + ["Bot (for User " + NatToString(e.userId) + "): " + generated[e.userId][e.turn]];
        }
      }
      j := j + 1;
    }
  }
}
