/**
 * The offline replies of the voice assistant in `VoiceChat`
 * (src/components/VoiceChat.tsx): `getOfflineBotReply` lower-cases the
 * message and answers with the reply of the first keyword group, in a fixed
 * order, that occurs anywhere in it, or with a default reply.
 */
module VoiceChat {

  // Each reply is written as its opening words and the rest, which is the
  // same string.

  const Greeting: string := "Hello! " + "How can I help you with your health today?"
  const MorningReply: string := "Good morning! " + "I hope you\U{2019}re feeling well today."
  const FeverReply: string :=
    "If you have a fever, " + "drink plenty of fluids and rest. If it lasts more than 2 days, consult a doctor."
  const HeadacheReply: string :=
    "For mild headaches, " + "rest in a quiet place and drink water. If persistent, see a doctor."
  const CoughReply: string := "A mild cough " + "can be eased with warm fluids and honey. See a doctor if it worsens."
  const CovidReply: string := "If you suspect COVID-19, " + "isolate and get tested as soon as possible."
  const EmergencyReply: string := "Please call " + "your nearest hospital or emergency number immediately!"
  const DefaultReply: string :=
    "I\U{2019}m here to help " + "with basic health information. Please tell me your symptoms."

  // ---------------------------------------------------------------------------
  // `toLowerCase` and `includes`
  // ---------------------------------------------------------------------------

  /**
   * The lower case of one character, as far as it matters for ASCII keywords:
   * A to Z become a to z, the dotted capital I becomes i and a combining dot,
   * the Kelvin sign becomes k. These are the only characters whose lower case
   * holds an ASCII letter; every other character is kept as it is.
   */
  function LowerChar(c: char): string
  {
    if 'A' <= c <= 'Z' then [(c as int - 'A' as int + 'a' as int) as char]
    else if c == '\U{130}' then ['i', '\U{307}']
    else if c == '\U{212A}' then ['k']
    else [c]
  }

  /** `message.toLowerCase()`. */
  function Lower(s: string): string
  {
    if s == [] then [] else LowerChar(s[0]) + Lower(s[1..])
  }

  lemma {:induction false} LowerAppend(a: string, b: string)
    ensures Lower(a + b) == Lower(a) + Lower(b)
    decreases |a|
  {
    if a == [] {
      assert a + b == b;
    } else {
      assert (a + b)[0] == a[0] && (a + b)[1..] == a[1..] + b;
      LowerAppend(a[1..], b);
    }
  }

  /** Lower-casing twice is lower-casing once. */
  lemma {:induction false} LowerIdempotent(s: string)
    ensures Lower(Lower(s)) == Lower(s)
    decreases |s|
  {
    if s != [] {
      var c := s[0];
      LowerAppend(LowerChar(c), Lower(s[1..]));
      LowerIdempotent(s[1..]);
      var l := LowerChar(c);
      if |l| == 1 {
        assert Lower(l) == LowerChar(l[0]) + Lower([]);
      } else {
        assert l == ['i', '\U{307}'];
        assert l[1..] == ['\U{307}'];
        assert Lower(l) == LowerChar('i') + (LowerChar('\U{307}') + Lower([]));
      }
    }
  }

  /** Two messages that differ only in letter case. */
  predicate EqualIgnoringCase(a: string, b: string)
  {
    |a| == |b| && forall i :: 0 <= i < |a| ==> LowerChar(a[i]) == LowerChar(b[i])
  }

  lemma {:induction false} LowerIgnoresCase(a: string, b: string)
    requires EqualIgnoringCase(a, b)
    ensures Lower(a) == Lower(b)
    decreases |a|
  {
    if a != [] {
      LowerIgnoresCase(a[1..], b[1..]);
    }
  }

  /** `k` occurs in `s` at position `i`. */
  predicate OccursAt(s: string, k: string, i: int)
  {
    0 <= i && i + |k| <= |s| && s[i..i + |k|] == k
  }

  /** `k` occurs somewhere in `s`. */
  ghost predicate Occurs(s: string, k: string)
  {
    exists i :: OccursAt(s, k, i)
  }

  /** `s.includes(k)`, searched from the front. */
  function Includes(s: string, k: string): (r: bool)
    ensures r <==> Occurs(s, k)
    decreases |s|
  {
    if |s| < |k| then
      assert forall i :: !OccursAt(s, k, i);
      false
    else if s[..|k|] == k then
      assert OccursAt(s, k, 0);
      true
    else
      var r := Includes(s[1..], k);
      assert r ==> Occurs(s, k) by {
        if r {
          var i :| OccursAt(s[1..], k, i);
          assert s[i + 1..i + 1 + |k|] == s[1..][i..i + |k|];
          assert OccursAt(s, k, i + 1);
        }
      }
      assert Occurs(s, k) ==> r by {
        if Occurs(s, k) {
          var i :| OccursAt(s, k, i);
          assert i != 0;
          assert s[1..][i - 1..i - 1 + |k|] == s[i..i + |k|];
          assert OccursAt(s[1..], k, i - 1);
        }
      }
      r
  }

  // ---------------------------------------------------------------------------
  // `getOfflineBotReply`
  // ---------------------------------------------------------------------------

  /** The if-chain on the lower-cased message. */
  function ReplyToLower(m: string): string
  {
    if Includes(m, "hello") || Includes(m, "hi") then Greeting
    else if Includes(m, "good morning") then MorningReply
    else if Includes(m, "fever") then FeverReply
    else if Includes(m, "headache") then HeadacheReply
    else if Includes(m, "cough") then CoughReply
    else if Includes(m, "covid") then CovidReply
    else if Includes(m, "emergency") then EmergencyReply
    else DefaultReply
  }

  /** `getOfflineBotReply(message)`. */
  function Reply(message: string): string
  {
    ReplyToLower(Lower(message))
  }

  /** A keyword group and its reply. */
  datatype Rule = Rule(keywords: seq<string>, reply: string)

  /** The keyword groups in the order they are tried. */
  const Rules: seq<Rule> := [
    Rule(["hello", "hi"], Greeting),
    Rule(["good morning"], MorningReply),
    Rule(["fever"], FeverReply),
    Rule(["headache"], HeadacheReply),
    Rule(["cough"], CoughReply),
    Rule(["covid"], CovidReply),
    Rule(["emergency"], EmergencyReply)
  ]

  /** Some keyword of `r` occurs in `m`. */
  ghost predicate Matches(m: string, r: Rule)
  {
    exists k :: k in r.keywords && Occurs(m, k)
  }

  /** The index of the first group from `i` on with a keyword in `m`, or |Rules|. */
  ghost function FirstMatchFrom(m: string, i: nat): (n: nat)
    requires i <= |Rules|
    ensures i <= n <= |Rules|
    ensures forall j :: i <= j < n ==> !Matches(m, Rules[j])
    ensures n < |Rules| ==> Matches(m, Rules[n])
    decreases |Rules| - i
  {
    if i == |Rules| then i
    else if Matches(m, Rules[i]) then i
    else FirstMatchFrom(m, i + 1)
  }

  /** The reply the table gives: that of the first matching group, or the default. */
  ghost function TableReply(m: string): string
  {
    var n := FirstMatchFrom(m, 0);
    if n < |Rules| then Rules[n].reply else DefaultReply
  }

  lemma MatchesOne(m: string, k: string, reply: string)
    ensures Matches(m, Rule([k], reply)) <==> Includes(m, k)
  {
    if Includes(m, k) {
      assert k in [k];
    }
  }

  lemma MatchesTwo(m: string, k1: string, k2: string, reply: string)
    ensures Matches(m, Rule([k1, k2], reply)) <==> Includes(m, k1) || Includes(m, k2)
  {
    if Includes(m, k1) {
      assert k1 in [k1, k2];
    }
    if Includes(m, k2) {
      assert k2 in [k1, k2];
    }
  }

  /** The if-chain is the first-match table: the reply of the earliest group with a keyword present. */
  lemma ChainIsFirstMatch(m: string)
    ensures ReplyToLower(m) == TableReply(m)
  {
    MatchesTwo(m, "hello", "hi", Greeting);
    MatchesOne(m, "good morning", MorningReply);
    MatchesOne(m, "fever", FeverReply);
    MatchesOne(m, "headache", HeadacheReply);
    MatchesOne(m, "cough", CoughReply);
    MatchesOne(m, "covid", CovidReply);
    MatchesOne(m, "emergency", EmergencyReply);
    assert |Rules| == 7;
  }

  /** The eight replies are pairwise different. */
  lemma RepliesDiffer()
    ensures forall i, j :: 0 <= i < j < |Replies()| ==> Replies()[i] != Replies()[j]
  {
    var rs := Replies();
    assert Greeting[0] == 'H' && MorningReply[0] == 'G' && FeverReply[0] == 'I' && HeadacheReply[0] == 'F';
    assert CoughReply[0] == 'A' && CovidReply[0] == 'I' && EmergencyReply[0] == 'P' && DefaultReply[0] == 'I';
    assert FeverReply[1] == 'f' && CovidReply[1] == 'f' && DefaultReply[1] == '\U{2019}';
    assert FeverReply[7] == 'h' && CovidReply[7] == 's';
    forall i, j | 0 <= i < j < |rs|
      ensures rs[i] != rs[j]
    {
      if rs[i][0] == rs[j][0] && rs[i][1] == rs[j][1] {
        assert rs[i][7] != rs[j][7];
      }
    }
  }

  /** The eight replies: the seven of the groups, then the default. */
  function Replies(): seq<string>
  {
    [Greeting, MorningReply, FeverReply, HeadacheReply, CoughReply, CovidReply, EmergencyReply, DefaultReply]
  }

  /** Every reply is one of the eight fixed strings. */
  lemma ReplyIsFixed(message: string)
    ensures Reply(message) in Replies()
  {
  }

  /**
   * Group `n` answers exactly when one of its keywords occurs in the
   * lower-cased message and no keyword of an earlier group does.
   */
  lemma ReplyIsFirstMatch(message: string, n: nat)
    requires n < |Rules|
    ensures Reply(message) == Rules[n].reply <==>
      (Matches(Lower(message), Rules[n]) && forall j :: 0 <= j < n ==> !Matches(Lower(message), Rules[j]))
  {
    var f := FirstMatchFrom(Lower(message), 0);
    ReplyOfFirstMatch(message);
    RepliesDiffer();
    GroupReplies();
    assert Reply(message) == Rules[n].reply <==> f == n;
  }

  /** The reply is the one at the index of the first matching group, the default (index 7) if none. */
  lemma ReplyOfFirstMatch(message: string)
    ensures FirstMatchFrom(Lower(message), 0) < |Replies()|
    ensures Reply(message) == Replies()[FirstMatchFrom(Lower(message), 0)]
  {
    ChainIsFirstMatch(Lower(message));
    GroupReplies();
  }

  /** The replies of the groups are the first seven replies, in order. */
  lemma GroupReplies()
    ensures |Rules| == 7 && |Replies()| == 8 && Replies()[7] == DefaultReply
    ensures forall j :: 0 <= j < |Rules| ==> Rules[j].reply == Replies()[j]
  {
  }

  /** The greeting answers exactly the messages containing "hello" or "hi", inside a word or not. */
  lemma GreetingWins(message: string)
    ensures Reply(message) == Greeting <==> Occurs(Lower(message), "hello") || Occurs(Lower(message), "hi")
  {
    ReplyIsFirstMatch(message, 0);
    assert Rules[0].keywords == ["hello", "hi"];
  }

  /** The default reply answers exactly the messages with no keyword at all, the empty one included. */
  lemma DefaultWhenNoKeyword(message: string)
    ensures Reply(message) == DefaultReply <==> forall j :: 0 <= j < |Rules| ==> !Matches(Lower(message), Rules[j])
    ensures Reply("") == DefaultReply
  {
    var f := FirstMatchFrom(Lower(message), 0);
    ReplyOfFirstMatch(message);
    RepliesDiffer();
    GroupReplies();
    assert Reply(message) == DefaultReply <==> f == |Rules|;
    EmptyMessage();
  }

  lemma EmptyMessage()
    ensures Reply("") == DefaultReply
  {
    assert Lower("") == "";
  }

  /** Messages that differ only in letter case get the same reply. */
  lemma ReplyIgnoresCase(a: string, b: string)
    requires EqualIgnoringCase(a, b)
    ensures Reply(a) == Reply(b)
  {
    LowerIgnoresCase(a, b);
  }

  /**
   * "hi" inside a word counts, ahead of every other keyword: "this", "think"
   * or "which" in a message brings the greeting.
   */
  lemma HiInsideAWord(a: string, b: string)
    ensures Reply(a + "hi" + b) == Greeting
  {
    HiSurvivesLowering(a, b);
    GreetingWins(a + "hi" + b);
  }

  lemma HiSurvivesLowering(a: string, b: string)
    ensures Occurs(Lower(a + "hi" + b), "hi")
  {
    var l := Lower(a + "hi" + b);
    LowerAppend(a + "hi", b);
    LowerAppend(a, "hi");
    assert "hi"[1..] == "i" && "i"[1..] == [];
    assert Lower("hi") == "hi";
    var n := |Lower(a)|;
    assert l == Lower(a) + "hi" + Lower(b);
    assert l[n..n + 2] == "hi";
    assert OccursAt(l, "hi", n);
  }

  /** So "This is an emergency" gets the greeting, not the emergency reply. */
  lemma EmergencyGreeted()
    ensures Reply("This is an emergency") == Greeting
  {
    assert "This is an emergency" == "T" + "hi" + "s is an emergency";
    HiInsideAWord("T", "s is an emergency");
  }
}
