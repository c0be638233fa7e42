/** The flattening that "New Chat" performs: every slot's history becomes
    alternating "User k: ..." / "Bot k: ..." lines in one buffer, which is
    archived when non-empty. */
module Archive {

  /** The decimal digit character for d. */
  function Digit(d: nat): char
    requires d < 10
  {
    ('0' as int + d) as char
  }

  /** Decimal rendering of a slot id, as Python's str() renders a non-negative int. */
  function NatToString(n: nat): (s: string)
    ensures |s| >= 1
    ensures AllDigits(s)
    decreases n
  {
    if n < 10 then [Digit(n)] else NatToString(n / 10) + [Digit(n % 10)]
  }

  /** Every character of s is a decimal digit. */
  predicate AllDigits(s: string)
  {
    forall i :: 0 <= i < |s| ==> '0' <= s[i] <= '9'
  }

  /** The number a string of decimal digits denotes. */
  function DecimalValue(s: string): nat
    requires AllDigits(s)
    decreases |s|
  {
    if s == [] then 0 else DecimalValue(s[..|s| - 1]) * 10 + (s[|s| - 1] as int - '0' as int)
  }

  /** NatToString is a faithful decimal rendering: reading it back gives n. */
  lemma {:induction false} DecimalRoundTrip(n: nat)
    ensures DecimalValue(NatToString(n)) == n
    decreases n
  {
    if n >= 10 {
      DecimalRoundTrip(n / 10);
      var s := NatToString(n);
      assert s[..|s| - 1] == NatToString(n / 10);
    }
  }

  /** Like str(), the label of a non-zero id has no leading zero. */
  lemma {:induction false} NoLeadingZero(n: nat)
    requires n >= 1
    ensures NatToString(n)[0] != '0'
    decreases n
  {
    if n >= 10 {
      NoLeadingZero(n / 10);
    }
  }

  /** Distinct slot ids get distinct labels. */
  lemma NatToStringInjective(m: nat, n: nat)
    requires NatToString(m) == NatToString(n)
    ensures m == n
  {
    DecimalRoundTrip(m);
    DecimalRoundTrip(n);
  }

  function UserLine(k: nat, text: string): string
  {
    "User " + NatToString(k) + ": " + text
  }

  function BotLine(k: nat, text: string): string
  {
    "Bot " + NatToString(k) + ": " + text
  }

  /** A slot contributes to the archive only when both of its lists are non-empty. */
  predicate Contributes(p: seq<string>, g: seq<string>)
  {
    g != [] && p != []
  }

  /** What the flattening loop needs to index past[k][i] for every turn i of a
      contributing slot k without a fault. */
  predicate Flattenable(past: seq<seq<string>>, generated: seq<seq<string>>)
  {
    |generated| <= |past| &&
    forall k :: 0 <= k < |generated| ==>
      Contributes(past[k], generated[k]) ==> |generated[k]| <= |past[k]|
  }

  /** The lines of the first m turns of slot k. */
  function TurnLines(k: nat, p: seq<string>, g: seq<string>, m: nat): seq<string>
    requires m <= |p| && m <= |g|
    decreases m
  {
    if m == 0 then []
    else TurnLines(k, p, g, m - 1) + [UserLine(k, p[m - 1]), BotLine(k, g[m - 1])]
  }

  /** The lines slot k adds to the buffer. */
  function SlotLines(k: nat, p: seq<string>, g: seq<string>): seq<string>
    requires Contributes(p, g) ==> |g| <= |p|
  {
    if Contributes(p, g) then TurnLines(k, p, g, |g|) else []
  }

  /** The buffer after visiting slots 0 .. n-1. */
  function TranscriptUpTo(past: seq<seq<string>>, generated: seq<seq<string>>, n: nat): seq<string>
    requires Flattenable(past, generated) && n <= |generated|
    decreases n
  {
    if n == 0 then []
    else TranscriptUpTo(past, generated, n - 1) + SlotLines(n - 1, past[n - 1], generated[n - 1])
  }

  /** The buffer "New Chat" builds from the whole session. */
  function Transcript(past: seq<seq<string>>, generated: seq<seq<string>>): seq<string>
    requires Flattenable(past, generated)
  {
    TranscriptUpTo(past, generated, |generated|)
  }

  /** The number of turns of the contributing slots among 0 .. n-1. */
  function ContributedTurns(past: seq<seq<string>>, generated: seq<seq<string>>, n: nat): nat
    requires n <= |generated| <= |past|
  {
    if n == 0 then 0
    else ContributedTurns(past, generated, n - 1)
         + (if Contributes(past[n - 1], generated[n - 1]) then |generated[n - 1]| else 0)
  }

  /** Turn i of slot k gives line 2i "User k: past[i]" and line 2i+1 "Bot k: generated[i]". */
  lemma {:induction false} TurnLinesShape(k: nat, p: seq<string>, g: seq<string>, m: nat)
    requires m <= |p| && m <= |g|
    ensures |TurnLines(k, p, g, m)| == 2 * m
    ensures forall j :: 0 <= j < 2 * m ==>
      TurnLines(k, p, g, m)[j] == if j % 2 == 0 then UserLine(k, p[j / 2]) else BotLine(k, g[j / 2])
    decreases m
  {
    if m > 0 {
      TurnLinesShape(k, p, g, m - 1);
      var prev := TurnLines(k, p, g, m - 1);
      var all := prev + [UserLine(k, p[m - 1]), BotLine(k, g[m - 1])];
      assert all == TurnLines(k, p, g, m);
      forall j | 0 <= j < 2 * m
        ensures all[j] == if j % 2 == 0 then UserLine(k, p[j / 2]) else BotLine(k, g[j / 2])
      {
        if j < 2 * m - 2 {
          assert all[j] == prev[j];
        } else if j == 2 * m - 2 {
          assert j / 2 == m - 1 && j % 2 == 0;
        } else {
          assert j / 2 == m - 1 && j % 2 == 1;
        }
      }
    }
  }

  /** Helper: a User line starts with "User ", a Bot line with "Bot ". */
  lemma LinePrefixes(k: nat, text: string)
    ensures "User " <= UserLine(k, text)
    ensures "Bot " <= BotLine(k, text)
  {
  }

  /** Consecutive pairs of a User line followed by a Bot line. */
  predicate Alternates(lines: seq<string>)
    decreases |lines|
  {
    lines == [] ||
    (|lines| >= 2 && "User " <= lines[0] && "Bot " <= lines[1] && Alternates(lines[2..]))
  }

  lemma {:induction false} AlternatesConcat(a: seq<string>, b: seq<string>)
    requires Alternates(a) && Alternates(b)
    ensures Alternates(a + b)
    decreases |a|
  {
    if a != [] {
      AlternatesConcat(a[2..], b);
      assert (a + b)[2..] == a[2..] + b;
    } else {
      assert a + b == b;
    }
  }

  /** In alternating lines, even positions hold User lines and odd positions Bot
      lines, which is how the sidebar styles an archived session. */
  lemma {:induction false} AlternatesAt(lines: seq<string>, j: nat)
    requires Alternates(lines) && j < |lines|
    ensures |lines| % 2 == 0
    ensures j % 2 == 0 ==> "User " <= lines[j]
    ensures j % 2 == 1 ==> "Bot " <= lines[j]
    decreases |lines|
  {
    if j >= 2 {
      AlternatesAt(lines[2..], j - 2);
      assert lines[j] == lines[2..][j - 2];
    } else {
      if |lines| > 2 {
        AlternatesAt(lines[2..], 0);
      }
    }
  }

  /** A slot's lines: two per turn, a User line then its Bot line. */
  lemma SlotLinesShape(k: nat, p: seq<string>, g: seq<string>)
    requires Contributes(p, g) ==> |g| <= |p|
    ensures |SlotLines(k, p, g)| == if Contributes(p, g) then 2 * |g| else 0
    ensures Alternates(SlotLines(k, p, g))
  {
    if Contributes(p, g) {
      TurnLinesShape(k, p, g, |g|);
      TurnLinesAlternate(k, p, g, |g|);
    }
  }

  lemma {:induction false} TurnLinesAlternate(k: nat, p: seq<string>, g: seq<string>, m: nat)
    requires m <= |p| && m <= |g|
    ensures Alternates(TurnLines(k, p, g, m))
    decreases m
  {
    if m > 0 {
      TurnLinesAlternate(k, p, g, m - 1);
      var pair := [UserLine(k, p[m - 1]), BotLine(k, g[m - 1])];
      LinePrefixes(k, p[m - 1]);
      LinePrefixes(k, g[m - 1]);
      assert pair[2..] == [];
      assert Alternates(pair);
      AlternatesConcat(TurnLines(k, p, g, m - 1), pair);
    }
  }

  /** The buffer has two lines per contributing turn. */
  lemma {:induction false} TranscriptLength(past: seq<seq<string>>, generated: seq<seq<string>>, n: nat)
    requires Flattenable(past, generated) && n <= |generated|
    ensures |TranscriptUpTo(past, generated, n)| == 2 * ContributedTurns(past, generated, n)
    decreases n
  {
    if n > 0 {
      TranscriptLength(past, generated, n - 1);
      SlotLinesShape(n - 1, past[n - 1], generated[n - 1]);
    }
  }

  /** The buffer is a run of (User line, Bot line) pairs. */
  lemma {:induction false} TranscriptAlternates(past: seq<seq<string>>, generated: seq<seq<string>>, n: nat)
    requires Flattenable(past, generated) && n <= |generated|
    ensures Alternates(TranscriptUpTo(past, generated, n))
    decreases n
  {
    if n > 0 {
      TranscriptAlternates(past, generated, n - 1);
      SlotLinesShape(n - 1, past[n - 1], generated[n - 1]);
      AlternatesConcat(TranscriptUpTo(past, generated, n - 1), SlotLines(n - 1, past[n - 1], generated[n - 1]));
    }
  }

  /** The buffer is empty exactly when no slot has both a question and an answer. */
  lemma {:induction false} TranscriptEmptyIff(past: seq<seq<string>>, generated: seq<seq<string>>, n: nat)
    requires Flattenable(past, generated) && n <= |generated|
    ensures TranscriptUpTo(past, generated, n) == [] <==>
      forall k :: 0 <= k < n ==> !Contributes(past[k], generated[k])
    decreases n
  {
    if n > 0 {
      TranscriptEmptyIff(past, generated, n - 1);
      var p, g := past[n - 1], generated[n - 1];
      var prev := TranscriptUpTo(past, generated, n - 1);
      assert TranscriptUpTo(past, generated, n) == prev + SlotLines(n - 1, p, g);
      if Contributes(p, g) {
        SlotLinesShape(n - 1, p, g);
        assert |prev + SlotLines(n - 1, p, g)| > 0;
      } else {
        assert SlotLines(n - 1, p, g) == [];
        assert prev + [] == prev;
      }
    }
  }

  /** Two users, one turn each: one archive entry in roster order with alternating labels. */
  lemma ArchiveExample()
    ensures Transcript([["hi"], ["yo"]], [["hello"], ["hey"]])
         == ["User 0: hi", "Bot 0: hello", "User 1: yo", "Bot 1: hey"]
  {
    var past, generated := [["hi"], ["yo"]], [["hello"], ["hey"]];
    assert NatToString(0) == "0";
    assert NatToString(1) == "1";
    assert UserLine(0, "hi") == "User 0: hi";
    assert BotLine(0, "hello") == "Bot 0: hello";
    assert UserLine(1, "yo") == "User 1: yo";
    assert BotLine(1, "hey") == "Bot 1: hey";
    assert SlotLines(0, past[0], generated[0]) == ["User 0: hi", "Bot 0: hello"];
    assert SlotLines(1, past[1], generated[1]) == ["User 1: yo", "Bot 1: hey"];
    assert TranscriptUpTo(past, generated, 1) == ["User 0: hi", "Bot 0: hello"];
  }

  /** The flattening loop of "New Chat": slots in positional order, then turns in order. */
  method BuildTranscript(past: seq<seq<string>>, generated: seq<seq<string>>) returns (save: seq<string>)
    requires Flattenable(past, generated)
    ensures save == Transcript(past, generated)
  {
    save := [];
    var userId := 0;
    while userId < |generated|
      invariant 0 <= userId <= |generated|
      invariant save == TranscriptUpTo(past, generated, userId)
    {
      var p, g := past[userId], generated[userId];
      if g != [] && p != [] {
        assert |g| <= |p|;
        ghost var before := save;
        var i := 0;
        while i < |g|
          invariant 0 <= i <= |g|
          invariant save == before + TurnLines(userId, p, g, i)
        {
          save := save + [UserLine(userId, p[i])];
          save := save + [BotLine(userId, g[i])];
          assert TurnLines(userId, p, g, i + 1) == TurnLines(userId, p, g, i) + [UserLine(userId, p[i]), BotLine(userId, g[i])];
          i := i + 1;
        }
        assert save == before + SlotLines(userId, p, g);
      }
      userId := userId + 1;
    }
  }
}
