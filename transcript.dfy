/** The transcript splitter of the pricing calculator (`APIPricing.split_text`):
    a transcript is cut into lines, lines equal to `## USER` or `## ASSISTANT`
    switch between a user and an assistant bucket, empty lines are dropped,
    every other line goes to the bucket of the current mode, and each bucket
    is joined with single spaces.

    The specification here reads the lines back to front (`ModeAfter`,
    `Bucket`); the loop that reads them front to back is
    `Pricing.APIPricing.SplitText`. */
module Transcript {
  import opened Text

  const UserMarker: string := "## USER"
  const AssistantMarker: string := "## ASSISTANT"
  const Instruction: string :=
    "You will be provided with a text in English, and your task is to translate it into French."

  /** The user bucket starts out holding one empty line. */
  const UserSeed: seq<string> := [""]
  /** The assistant bucket starts out holding the marker and a fixed instruction. */
  const AssistantSeed: seq<string> := [AssistantMarker, Instruction]
  /** What every assistant result starts with. */
  const AssistantPrefix: string := AssistantMarker + " " + Instruction

  datatype Role = User | Assistant

  predicate IsMarker(line: string) {
    line == UserMarker || line == AssistantMarker
  }

  /** A line that is appended to some bucket. */
  predicate IsContent(line: string) {
    !IsMarker(line) && line != ""
  }

  function MarkerOf(r: Role): string {
    if r == User then UserMarker else AssistantMarker
  }

  function Other(r: Role): Role {
    if r == User then Assistant else User
  }

  /** The mode in force after reading `lines`: set by the last marker, user if there is none. */
  function ModeAfter(lines: seq<string>): (r: Role)
    ensures r == Assistant ==> AssistantMarker in lines
    ensures UserMarker !in lines && AssistantMarker in lines ==> r == Assistant
    decreases |lines|
  {
    if |lines| == 0 then User
    else
      var last := lines[|lines| - 1];
      if last == UserMarker then User
      else if last == AssistantMarker then Assistant
      else ModeAfter(lines[..|lines| - 1])
  }

  /** In input order, the content lines read while the mode is `r`. Markers
      and empty lines are never in a bucket. */
  function Bucket(lines: seq<string>, r: Role): (b: seq<string>)
    ensures |b| <= |lines|
    ensures forall i :: 0 <= i < |b| ==> IsContent(b[i])
    decreases |lines|
  {
    if |lines| == 0 then []
    else
      var init, last := lines[..|lines| - 1], lines[|lines| - 1];
      Bucket(init, r) + (if IsContent(last) && ModeAfter(init) == r then [last] else [])
  }

  /** All content lines, in input order. */
  function Content(lines: seq<string>): seq<string>
    decreases |lines|
  {
    if |lines| == 0 then []
    else
      var init, last := lines[..|lines| - 1], lines[|lines| - 1];
      Content(init) + (if IsContent(last) then [last] else [])
  }

  /** `lines` without its empty lines. */
  function NonEmpty(lines: seq<string>): seq<string>
    decreases |lines|
  {
    if |lines| == 0 then []
    else
      var init, last := lines[..|lines| - 1], lines[|lines| - 1];
      NonEmpty(init) + (if last != "" then [last] else [])
  }

  /** `a` is `b` with some elements left out. */
  predicate IsSubsequence(a: seq<string>, b: seq<string>)
    decreases |b|
  {
    if |a| == 0 then true
    else if |b| == 0 then false
    else (a[|a| - 1] == b[|b| - 1] && IsSubsequence(a[..|a| - 1], b[..|b| - 1]))
         || IsSubsequence(a, b[..|b| - 1])
  }

  /** The pair (user text, assistant text) built from the lines of a
      transcript: each bucket after its seed, joined with spaces. */
  function Segments(lines: seq<string>): (r: (string, string))
    ensures r.0 == "" <==> Bucket(lines, User) == []
    ensures r.0 != "" ==> r.0[0] == ' '
    ensures |r.1| >= |AssistantPrefix| && r.1[..|AssistantPrefix|] == AssistantPrefix
  {
    var u, a := Bucket(lines, User), Bucket(lines, Assistant);
    UserSeedJoin(u);
    AssistantSeedJoin(a);
    (Join(UserSeed + u, " "), Join(AssistantSeed + a, " "))
  }

  /** The splitter on a whole transcript: lines are cut at every "\n". */
  function SplitTranscript(text: string): (r: (string, string))
    ensures r.0 == "" || r.0[0] == ' '
    ensures |r.1| >= |AssistantPrefix| && r.1[..|AssistantPrefix|] == AssistantPrefix
  {
    Segments(Split(text, '\n'))
  }

  /** Joining the user seed with some lines. */
  lemma UserSeedJoin(b: seq<string>)
    ensures b == [] ==> Join(UserSeed + b, " ") == ""
    ensures b != [] ==> Join(UserSeed + b, " ") == " " + Join(b, " ")
  {
    if b != [] {
      assert (UserSeed + b)[1..] == b;
    }
  }

  /** Joining the assistant seed with some lines. */
  lemma AssistantSeedJoin(b: seq<string>)
    ensures b == [] ==> Join(AssistantSeed + b, " ") == AssistantPrefix
    ensures b != [] ==> Join(AssistantSeed + b, " ") == AssistantPrefix + " " + Join(b, " ")
  {
    var q := AssistantSeed + b;
    assert q[1..] == [Instruction] + b;
    assert ([Instruction] + b)[1..] == b;
    assert Join(q, " ") == AssistantMarker + " " + Join([Instruction] + b, " ");
    if b != [] {
      assert Join([Instruction] + b, " ") == Instruction + " " + Join(b, " ");
    }
  }

  // ---------------------------------------------------------------------
  // The two results

  /** The user text is "" when no line lands in the user bucket, and otherwise
      a space followed by the user lines joined with spaces. */
  lemma UserTextShape(lines: seq<string>)
    ensures Segments(lines).0 == "" <==> Bucket(lines, User) == []
    ensures Bucket(lines, User) != [] ==>
              Segments(lines).0 == " " + Join(Bucket(lines, User), " ")
  {
    UserSeedJoin(Bucket(lines, User));
  }

  /** The assistant text always starts with the seed lines joined with a space;
      it is exactly that when no line lands in the assistant bucket, and
      otherwise is followed by a space and the assistant lines. */
  lemma AssistantTextShape(lines: seq<string>)
    ensures |Segments(lines).1| >= |AssistantPrefix|
    ensures Segments(lines).1[..|AssistantPrefix|] == AssistantPrefix
    ensures Segments(lines).1 == AssistantPrefix <==> Bucket(lines, Assistant) == []
    ensures Bucket(lines, Assistant) != [] ==>
              Segments(lines).1 == AssistantPrefix + " " + Join(Bucket(lines, Assistant), " ")
  {
    AssistantSeedJoin(Bucket(lines, Assistant));
  }

  // ---------------------------------------------------------------------
  // The mode

  /** The mode is assistant exactly when some line is the assistant marker and
      no user marker follows it; otherwise it is user (the last marker wins). */
  lemma {:induction false} ModeAfterLastMarker(lines: seq<string>)
    ensures ModeAfter(lines) == Assistant <==>
              exists j :: 0 <= j < |lines| && lines[j] == AssistantMarker &&
                forall k :: j < k < |lines| ==> lines[k] != UserMarker
    decreases |lines|
  {
    if |lines| > 0 {
      var n := |lines|;
      var init, last := lines[..n - 1], lines[n - 1];
      if last == UserMarker {
        forall j | 0 <= j < n && lines[j] == AssistantMarker
          ensures exists k :: j < k < n && lines[k] == UserMarker
        {
          assert j < n - 1 && lines[n - 1] == UserMarker;
        }
      } else if last == AssistantMarker {
        assert lines[n - 1] == AssistantMarker;
      } else {
        ModeAfterLastMarker(init);
        if ModeAfter(init) == Assistant {
          var j :| 0 <= j < |init| && init[j] == AssistantMarker &&
                   forall k :: j < k < |init| ==> init[k] != UserMarker;
          assert lines[j] == AssistantMarker;
          assert forall k :: j < k < n ==> lines[k] != UserMarker by {
            forall k | j < k < n ensures lines[k] != UserMarker {
              if k < n - 1 { assert lines[k] == init[k]; }
            }
          }
        } else {
          forall j | 0 <= j < n && lines[j] == AssistantMarker
            ensures exists k :: j < k < n && lines[k] == UserMarker
          {
            assert j < n - 1 && init[j] == AssistantMarker;
            var k :| j < k < |init| && init[k] == UserMarker;
            assert lines[k] == UserMarker;
          }
        }
      }
    }
  }

  // ---------------------------------------------------------------------
  // What the buckets hold

  /** Every content line lands in exactly one of the two buckets. */
  lemma {:induction false} BucketsPartitionContent(lines: seq<string>)
    ensures multiset(Bucket(lines, User)) + multiset(Bucket(lines, Assistant))
            == multiset(Content(lines))
    decreases |lines|
  {
    if |lines| > 0 {
      BucketsPartitionContent(lines[..|lines| - 1]);
    }
  }

  /** Each bucket keeps the content lines in input order. */
  lemma {:induction false} BucketKeepsOrder(lines: seq<string>, r: Role)
    ensures IsSubsequence(Bucket(lines, r), Content(lines))
    decreases |lines|
  {
    if |lines| > 0 {
      var init, last := lines[..|lines| - 1], lines[|lines| - 1];
      BucketKeepsOrder(init, r);
      var b, c := Bucket(init, r), Content(init);
      if IsContent(last) && ModeAfter(init) == r {
        assert (b + [last])[..|b|] == b;
        assert (c + [last])[..|c|] == c;
      } else if IsContent(last) {
        assert Bucket(lines, r) == b;
        assert Content(lines) == c + [last];
        assert (c + [last])[..|c|] == c;
      } else {
        assert Bucket(lines, r) == b && Content(lines) == c;
      }
    }
  }

  /** Before any marker the mode is user: a transcript without markers puts
      every content line in the user bucket and none in the assistant one. */
  lemma {:induction false} NoMarkersAllUser(lines: seq<string>)
    requires forall i :: 0 <= i < |lines| ==> !IsMarker(lines[i])
    ensures ModeAfter(lines) == User
    ensures Bucket(lines, User) == Content(lines)
    ensures Bucket(lines, Assistant) == []
    decreases |lines|
  {
    if |lines| > 0 {
      NoMarkersAllUser(lines[..|lines| - 1]);
    }
  }

  /** After the marker of role `r`, and until the next marker, content lines
      go to the bucket of `r` and the other bucket is left as it was. */
  lemma {:induction false} MarkerSwitchesBucket(pre: seq<string>, r: Role, rest: seq<string>)
    requires forall i :: 0 <= i < |rest| ==> !IsMarker(rest[i])
    ensures ModeAfter(pre + [MarkerOf(r)] + rest) == r
    ensures Bucket(pre + [MarkerOf(r)] + rest, r) == Bucket(pre, r) + Content(rest)
    ensures Bucket(pre + [MarkerOf(r)] + rest, Other(r)) == Bucket(pre, Other(r))
    decreases |rest|
  {
    var s := pre + [MarkerOf(r)] + rest;
    if |rest| == 0 {
      assert s[..|s| - 1] == pre;
    } else {
      var init := rest[..|rest| - 1];
      MarkerSwitchesBucket(pre, r, init);
      assert s[..|s| - 1] == pre + [MarkerOf(r)] + init;
      assert s[|s| - 1] == rest[|rest| - 1];
    }
  }

  /** A line that is neither a marker nor empty is appended to the bucket of
      the current mode, and so is every content line after it up to the next
      marker; the other bucket is left as it was. */
  lemma {:induction false} ContentLineAppends(a: seq<string>, x: string, b: seq<string>)
    requires IsContent(x)
    requires forall i :: 0 <= i < |b| ==> !IsMarker(b[i])
    ensures ModeAfter(a + [x] + b) == ModeAfter(a)
    ensures Bucket(a + [x] + b, ModeAfter(a)) == Bucket(a, ModeAfter(a)) + [x] + Content(b)
    ensures Bucket(a + [x] + b, Other(ModeAfter(a))) == Bucket(a, Other(ModeAfter(a)))
    decreases |b|
  {
    var s := a + [x] + b;
    if |b| == 0 {
      assert s[..|s| - 1] == a;
    } else {
      var init := b[..|b| - 1];
      ContentLineAppends(a, x, init);
      assert s[..|s| - 1] == a + [x] + init;
      assert s[|s| - 1] == b[|b| - 1];
    }
  }

  /** Markers match by exact equality: a marker with a trailing blank or
      carriage return is ordinary content. */
  lemma MarkersMatchExactly(lines: seq<string>)
    ensures IsContent("## USER ") && IsContent("## USER\r")
    ensures IsContent("## ASSISTANT ") && IsContent("## ASSISTANT\r")
    ensures forall x | x in ["## USER ", "## USER\r", "## ASSISTANT ", "## ASSISTANT\r"] ::
              Bucket(lines + [x], ModeAfter(lines)) == Bucket(lines, ModeAfter(lines)) + [x]
  {
    forall x | x in ["## USER ", "## USER\r", "## ASSISTANT ", "## ASSISTANT\r"]
      ensures Bucket(lines + [x], ModeAfter(lines)) == Bucket(lines, ModeAfter(lines)) + [x]
    {
      ContentLineAppends(lines, x, []);
      assert lines + [x] + [] == lines + [x];
    }
  }

  // ---------------------------------------------------------------------
  // Empty lines

  /** Inserting an empty line anywhere changes neither the mode nor a bucket. */
  lemma {:induction false} EmptyLineIgnored(a: seq<string>, b: seq<string>, r: Role)
    ensures ModeAfter(a + [""] + b) == ModeAfter(a + b)
    ensures Bucket(a + [""] + b, r) == Bucket(a + b, r)
    decreases |b|
  {
    var s, t := a + [""] + b, a + b;
    if |b| == 0 {
      assert s[..|s| - 1] == a;
      assert t == a;
    } else {
      var init := b[..|b| - 1];
      EmptyLineIgnored(a, init, r);
      assert s[..|s| - 1] == a + [""] + init;
      assert t[..|t| - 1] == a + init;
      assert s[|s| - 1] == t[|t| - 1];
    }
  }

  /** Removing all empty lines changes neither the mode nor a bucket. */
  lemma {:induction false} EmptyLinesRemoved(lines: seq<string>, r: Role)
    ensures ModeAfter(NonEmpty(lines)) == ModeAfter(lines)
    ensures Bucket(NonEmpty(lines), r) == Bucket(lines, r)
    decreases |lines|
  {
    if |lines| > 0 {
      var init, last := lines[..|lines| - 1], lines[|lines| - 1];
      assert lines == init + [last];
      EmptyLinesRemoved(init, r);
      Snoc(init, last, r);
      if last != "" {
        Snoc(NonEmpty(init), last, r);
        assert NonEmpty(lines) == NonEmpty(init) + [last];
      } else {
        assert !IsMarker(last) && !IsContent(last);
        assert NonEmpty(lines) == NonEmpty(init);
      }
    }
  }

  /** On whole transcripts: blank lines between (or around) newline-free lines
      do not change either result. */
  lemma BlankLineIgnoredInTranscript(a: seq<string>, b: seq<string>)
    requires forall i :: 0 <= i < |a + b| ==> '\n' !in (a + b)[i]
    ensures SplitTranscript(Join(a + [""] + b, "\n")) == SplitTranscript(Join(a + b, "\n"))
  {
    var s, t := a + [""] + b, a + b;
    if t == [] {
      assert s == [""];
      return;
    }
    forall i | 0 <= i < |s| ensures '\n' !in s[i] {
      if i < |a| { assert s[i] == t[i]; }
      else if i > |a| { assert s[i] == t[i - 1]; }
    }
    SplitJoin(s, '\n');
    SplitJoin(t, '\n');
    EmptyLineIgnored(a, b, User);
    EmptyLineIgnored(a, b, Assistant);
  }

  /** A transcript without markers: the user text is every non-empty line
      after a leading space, the assistant text is the fixed prefix. */
  lemma UnmarkedTranscript(text: string)
    requires forall i :: 0 <= i < |Split(text, '\n')| ==> !IsMarker(Split(text, '\n')[i])
    ensures SplitTranscript(text).0 == Join(UserSeed + Content(Split(text, '\n')), " ")
    ensures SplitTranscript(text).1 == AssistantPrefix
  {
    var lines := Split(text, '\n');
    NoMarkersAllUser(lines);
    AssistantTextShape(lines);
  }

  /** A two-turn transcript, worked through: the user text keeps the
      leading space of its seed, the assistant text keeps its seed lines. */
  lemma TwoTurnExample()
    ensures SplitTranscript(UserMarker + "\n" + "Hello" + "\n" + AssistantMarker + "\n" + "Bonjour")
            == (" Hello", AssistantPrefix + " Bonjour")
  {
    var lines: seq<string> := [UserMarker, "Hello", AssistantMarker, "Bonjour"];
    SplitJoin(lines, '\n');
    assert Join(lines[2..], "\n") == AssistantMarker + "\n" + "Bonjour";
    assert Join(lines, "\n") == UserMarker + "\n" + "Hello" + "\n" + AssistantMarker + "\n" + "Bonjour";
    TwoTurnSegments();
  }

  /** The results for the lines of the two-turn transcript. */
  lemma TwoTurnSegments()
    ensures Segments([UserMarker, "Hello", AssistantMarker, "Bonjour"])
            == (" Hello", AssistantPrefix + " Bonjour")
  {
    var lines: seq<string> := [UserMarker, "Hello", AssistantMarker, "Bonjour"];
    TwoTurnBuckets();
    UserTextShape(lines);
    AssistantTextShape(lines);
    assert Join(["Hello"], " ") == "Hello" && Join(["Bonjour"], " ") == "Bonjour";
    assert " " + "Hello" == " Hello" && " " + "Bonjour" == " Bonjour";
    assert AssistantPrefix + " " + "Bonjour" == AssistantPrefix + (" " + "Bonjour");
  }

  /** The buckets of the lines of the two-turn transcript. */
  lemma TwoTurnBuckets()
    ensures Bucket([UserMarker, "Hello", AssistantMarker, "Bonjour"], User) == ["Hello"]
    ensures Bucket([UserMarker, "Hello", AssistantMarker, "Bonjour"], Assistant) == ["Bonjour"]
  {
    var l0: seq<string> := [];
    var l1 := l0 + [UserMarker];
    var l2 := l1 + ["Hello"];
    var l3 := l2 + [AssistantMarker];
    assert [UserMarker, "Hello", AssistantMarker, "Bonjour"] == l3 + ["Bonjour"];
    Snoc(l0, UserMarker, User);
    Snoc(l0, UserMarker, Assistant);
    Snoc(l1, "Hello", User);
    Snoc(l1, "Hello", Assistant);
    Snoc(l2, AssistantMarker, User);
    Snoc(l2, AssistantMarker, Assistant);
    Snoc(l3, "Bonjour", User);
    Snoc(l3, "Bonjour", Assistant);
  }

  /** One more line at the end, unfolded. */
  lemma Snoc(init: seq<string>, x: string, r: Role)
    ensures ModeAfter(init + [x]) ==
              if x == UserMarker then User
              else if x == AssistantMarker then Assistant
              else ModeAfter(init)
    ensures Bucket(init + [x], r) ==
              Bucket(init, r) + (if IsContent(x) && ModeAfter(init) == r then [x] else [])
    ensures NonEmpty(init + [x]) == NonEmpty(init) + (if x != "" then [x] else [])
  {
  }
}
