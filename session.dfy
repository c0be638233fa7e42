/** The session state of the chat front end: the roster of user slots, the
    parallel per-slot lists and the archive of past chats, with the operations
    the buttons and the turn loop perform on them. */
module SessionState {
  import opened Archive
  import opened Timeline

  /** The roster as add_user builds it: slot i has id i. */
  predicate IsRoster(users: seq<nat>)
  {
    forall i :: 0 <= i < |users| ==> users[i] == i
  }

  /** The position of the first occurrence of x, the one list.remove deletes. */
  function IndexOf(s: seq<nat>, x: nat): (r: nat)
    requires x in s
    ensures r < |s| && s[r] == x
    ensures forall j :: 0 <= j < r ==> s[j] != x
  {
    if s[0] == x then 0 else 1 + IndexOf(s[1..], x)
  }

  /** The list with position i deleted, as `del l[i]`: the others keep their order. */
  function RemoveAt<T>(s: seq<T>, i: nat): (r: seq<T>)
    requires i < |s|
    ensures |r| == |s| - 1
    ensures forall j :: 0 <= j < |r| ==> r[j] == if j < i then s[j] else s[j + 1]
  {
    s[..i] + s[i + 1..]
  }

  /** add_user on a roster appends the next id and keeps it a roster. */
  lemma AddKeepsRoster(users: seq<nat>)
    requires IsRoster(users)
    ensures IsRoster(users + [|users|])
  {
  }

  /** remove_user(users[-1]) on a roster deletes the last position and keeps it a roster. */
  lemma RemoveLastKeepsRoster(users: seq<nat>)
    requires IsRoster(users) && |users| > 0
    ensures IndexOf(users, users[|users| - 1]) == |users| - 1
    ensures IsRoster(RemoveAt(users, |users| - 1))
  {
  }

  /** Helper: deleting the last position is taking the prefix. */
  lemma RemoveLastIsPrefix<T>(s: seq<T>)
    requires |s| > 0
    ensures RemoveAt(s, |s| - 1) == s[..|s| - 1]
  {
  }

  /** Removing any other id breaks the roster: the largest id survives but now
      lies one past the end of the shrunk parallel lists. Only the last id is
      ever removed, so this state is not reached. */
  lemma {:induction false} RemoveOtherBreaksRoster(users: seq<nat>, k: nat)
    requires IsRoster(users) && k + 1 < |users|
    ensures var r := RemoveAt(users, k); r[|r| - 1] == |r| && !IsRoster(r)
  {
    var r := RemoveAt(users, k);
    assert r[|r| - 1] == users[|users| - 1];
  }

  /** Appends msg to slot u when the text box held something. */
  function AppendIf(h: seq<seq<string>>, u: nat, msg: string, text: string): seq<seq<string>>
    requires u < |h|
  {
    if text != "" then h[u := h[u] + [msg]] else h
  }

  /** The lists after the turn loop's first n roster entries: slot ids[j] gets
      msgs[j] appended whenever texts[j] is non-empty. */
  function Recorded(h: seq<seq<string>>, ids: seq<nat>, msgs: seq<string>, texts: seq<string>, n: nat)
    : (r: seq<seq<string>>)
    requires n <= |ids| && n <= |msgs| && n <= |texts|
    requires forall j :: 0 <= j < |ids| ==> ids[j] < |h|
    ensures |r| == |h|
    decreases n
  {
    if n == 0 then h
    else AppendIf(Recorded(h, ids, msgs, texts, n - 1), ids[n - 1], msgs[n - 1], texts[n - 1])
  }

  /** Over a roster, each slot grows by exactly its own message when its text
      box held something, and is left alone otherwise. */
  lemma {:induction false} RecordedOnRoster(h: seq<seq<string>>, ids: seq<nat>, msgs: seq<string>, texts: seq<string>, n: nat)
    requires IsRoster(ids) && |h| == |ids| && n <= |ids| && |msgs| == |ids| && |texts| == |ids|
    ensures forall k :: 0 <= k < |h| ==>
      Recorded(h, ids, msgs, texts, n)[k] == if k < n && texts[k] != "" then h[k] + [msgs[k]] else h[k]
    decreases n
  {
    if n > 0 {
      RecordedOnRoster(h, ids, msgs, texts, n - 1);
      var prev := Recorded(h, ids, msgs, texts, n - 1);
      assert ids[n - 1] == n - 1;
      assert Recorded(h, ids, msgs, texts, n) == AppendIf(prev, n - 1, msgs[n - 1], texts[n - 1]);
    }
  }

  /** Recording the same texts into past and the replies into generated keeps
      every slot's question and answer counts equal, with or without repeated ids. */
  lemma {:induction false} RecordedKeepsPairs(past: seq<seq<string>>, generated: seq<seq<string>>, ids: seq<nat>,
                                              texts: seq<string>, replies: seq<string>, n: nat)
    requires |past| == |generated| && forall k :: 0 <= k < |past| ==> |past[k]| == |generated[k]|
    requires n <= |ids| && |texts| == |ids| && |replies| == |ids|
    requires forall j :: 0 <= j < |ids| ==> ids[j] < |past|
    ensures forall k :: 0 <= k < |past| ==>
      |Recorded(past, ids, texts, texts, n)[k]| == |Recorded(generated, ids, replies, texts, n)[k]|
    decreases n
  {
    if n > 0 {
      RecordedKeepsPairs(past, generated, ids, texts, replies, n - 1);
    }
  }

  /** st.session_state, with one field per key the bookkeeping uses. */
  class Session {
    var users: seq<nat>
    var generated: seq<seq<string>>
    var past: seq<seq<string>>
    var input: seq<string>
    var storedSession: seq<seq<string>>

    /** The roster is 0 .. n-1, the three parallel lists have one entry per
        slot, and every slot has as many questions as answers. */
    ghost predicate Valid()
      reads this
    {
      IsRoster(users) && |generated| == |users| && |past| == |users| && |input| == |users| &&
      forall k :: 0 <= k < |users| ==> |past[k]| == |generated[k]|
    }

    /** The first run of the script: every key starts as an empty list. */
    constructor ()
      ensures Valid()
      ensures users == [] && generated == [] && past == [] && input == [] && storedSession == []
    {
      users, generated, past, input, storedSession := [], [], [], [], [];
    }

    method AddUser() returns (userId: nat)
      modifies this
      ensures userId == |old(users)|
      ensures users == old(users) + [userId]
      ensures generated == old(generated) + [[]] && past == old(past) + [[]] && input == old(input) + [""]
      ensures storedSession == old(storedSession)
      ensures old(Valid()) ==> Valid()
    {
      userId := |users|;
      users := users + [userId];
      generated := generated + [[]];
      past := past + [[]];
      input := input + [""];
    }

    method RemoveUser(userId: int)
      requires userId in users ==> userId < |generated| && userId < |past| && userId < |input|
      modifies this
      ensures userId !in old(users) ==>
        users == old(users) && generated == old(generated) && past == old(past) && input == old(input)
      ensures userId in old(users) ==>
        users == RemoveAt(old(users), IndexOf(old(users), userId)) &&
        generated == RemoveAt(old(generated), userId) &&
        past == RemoveAt(old(past), userId) &&
        input == RemoveAt(old(input), userId)
      ensures storedSession == old(storedSession)
    {
      if userId in users {
        users := RemoveAt(users, IndexOf(users, userId));
        generated := RemoveAt(generated, userId);
        past := RemoveAt(past, userId);
        input := RemoveAt(input, userId);
      }
    }

    /** The "Remove User" button: removes the last roster id, if any. */
    method RemoveLastUser()
      requires |users| > 0 ==>
        var last := users[|users| - 1]; last < |generated| && last < |past| && last < |input|
      modifies this
      ensures old(users) == [] ==>
        users == [] && generated == old(generated) && past == old(past) && input == old(input)
      ensures old(users) != [] ==>
        var last := old(users)[|old(users)| - 1];
        users == RemoveAt(old(users), IndexOf(old(users), last)) &&
        generated == RemoveAt(old(generated), last) &&
        past == RemoveAt(old(past), last) &&
        input == RemoveAt(old(input), last)
      ensures storedSession == old(storedSession)
      ensures old(Valid()) ==> Valid()
      ensures old(Valid()) && old(users) != [] ==> users == old(users)[..|old(users)| - 1]
    {
      if users != [] {
        ghost var wasValid := Valid();
        ghost var n := |users|;
        if wasValid {
          RemoveLastKeepsRoster(users);
          RemoveLastIsPrefix(users);
          RemoveLastIsPrefix(generated);
          RemoveLastIsPrefix(past);
          RemoveLastIsPrefix(input);
        }
        RemoveUser(users[|users| - 1]);
        if wasValid {
          assert users == old(users)[..n - 1] && past == old(past)[..n - 1] && generated == old(generated)[..n - 1];
        }
      }
    }

    /** One iteration of the turn loop: a non-empty text is recorded with its reply. */
    method RecordTurn(userId: nat, userInput: string, output: string)
      requires userId < |past| && userId < |generated|
      modifies this
      ensures past == AppendIf(old(past), userId, userInput, userInput)
      ensures generated == AppendIf(old(generated), userId, output, userInput)
      ensures users == old(users) && input == old(input) && storedSession == old(storedSession)
    {
      if userInput != "" {
        past := past[userId := past[userId] + [userInput]];
        generated := generated[userId := generated[userId] + [output]];
      }
    }

    /** The turn loop of one pass: texts[j] is what slot users[j]'s text box
        returned and replies[j] what the completion returned for it. */
    method RecordTurns(texts: seq<string>, replies: seq<string>)
      requires |texts| == |users| && |replies| == |users|
      requires forall j :: 0 <= j < |users| ==> users[j] < |past| && users[j] < |generated|
      modifies this
      ensures users == old(users) && input == old(input) && storedSession == old(storedSession)
      ensures past == Recorded(old(past), users, texts, texts, |users|)
      ensures generated == Recorded(old(generated), users, replies, texts, |users|)
      ensures old(Valid()) ==> Valid()
    {
      var j := 0;
      while j < |users|
        invariant 0 <= j <= |users|
        invariant users == old(users) && input == old(input) && storedSession == old(storedSession)
        invariant past == Recorded(old(past), users, texts, texts, j)
        invariant generated == Recorded(old(generated), users, replies, texts, j)
      {
        RecordTurn(users[j], texts[j], replies[j]);
        j := j + 1;
      }
      if old(Valid()) {
        RecordedKeepsPairs(old(past), old(generated), users, texts, replies, |users|);
      }
    }

    /** The "New Chat" button: archive the flattened histories when there are
        any, then give every roster slot empty lists. */
    method NewChat()
      requires Flattenable(past, generated)
      modifies this
      ensures storedSession ==
        if Transcript(old(past), old(generated)) != [] then old(storedSession) + [Transcript(old(past), old(generated))]
        else old(storedSession)
      ensures users == old(users)
      ensures |generated| == |users| && forall k :: 0 <= k < |users| ==> generated[k] == []
      ensures |past| == |users| && forall k :: 0 <= k < |users| ==> past[k] == []
      ensures |input| == |users| && forall k :: 0 <= k < |users| ==> input[k] == ""
      ensures IsRoster(users) ==> Valid()
    {
      var save := BuildTranscript(past, generated);
      if save != [] {
        storedSession := storedSession + [save];
      }
      generated := seq(|users|, _ => []);
      past := seq(|users|, _ => []);
      input := seq(|users|, _ => "");
    }

    /** The "Clear-all" button, offered only while the archive is non-empty. */
    method ClearAll()
      modifies this
      ensures storedSession == []
      ensures users == old(users) && generated == old(generated) && past == old(past) && input == old(input)
      ensures old(Valid()) ==> Valid()
    {
      if storedSession != [] {
        storedSession := [];
      }
    }

    /** The merge and render of one pass (mb.py lines 170-190) over the current state. */
    method ShowCombined() returns (shown: seq<string>)
      requires Indexable(users, generated) && Indexable(users, past)
      ensures Renderable(Combined(users, generated, |users|), past, generated)
      ensures shown == Rendered(Combined(users, generated, |users|), past, generated)
      ensures Valid() ==> |shown| == 2 * TurnTotal(users, generated, |users|)
    {
      var sorted := MergeTimeline(users, generated);
      CombinedShape(users, generated, |users|);
      forall j | 0 <= j < |sorted|
        ensures Addressable(sorted[j], past, generated)
      {
        var i :| 0 <= i < |users| && users[i] == sorted[j].userId;
      }
      shown := RenderConversation(sorted, past, generated);
      if Valid() {
        RenderCurrentTimeline(users, past, generated);
      }
    }
  }
}
