/** Mention extraction: `content.match(/@(\w+)/g)`, with the leading `@` cut from every
    match, or the empty list when nothing matches. */
module Mentions {
  import opened JsPrelude

  /** The length of the run of word characters that starts `s`. */
  function WordRunLength(s: string): (n: nat)
    ensures n <= |s|
  {
    if s != [] && IsWordChar(s[0]) then 1 + WordRunLength(s[1..]) else 0
  }

  /** The run is made of word characters and is followed by a non-word character or
      the end of the text. */
  lemma {:induction false} WordRunIsMaximal(s: string)
    ensures forall i :: 0 <= i < WordRunLength(s) ==> IsWordChar(s[i])
    ensures WordRunLength(s) == |s| || !IsWordChar(s[WordRunLength(s)])
    decreases |s|
  {
    if s != [] && IsWordChar(s[0]) {
      WordRunIsMaximal(s[1..]);
      assert forall i :: 1 <= i < WordRunLength(s) ==> s[i] == s[1..][i - 1];
    }
  }

  /** What the global regular expression scan returns, with the `@` cut: at each
      position an `@` followed by at least one word character matches greedily and
      the scan resumes after the match; anywhere else the scan moves one character on. */
  function ScanMentions(s: string): (names: seq<string>)
    ensures forall m :: m in names ==> m != [] && forall i :: 0 <= i < |m| ==> IsWordChar(m[i])
    decreases |s|
  {
    if |s| >= 2 && s[0] == '@' && IsWordChar(s[1]) then
      var n := WordRunLength(s[1..]);
      var name := s[1..1 + n];
      WordRunIsMaximal(s[1..]);
      assert name == s[1..][..n];
      var rest := ScanMentions(s[1 + n..]);
      assert forall m :: m in [name] + rest ==> m == name || m in rest;
      [name] + rest
    else if s == [] then []
    else ScanMentions(s[1..])
  }

  /** An `@` at position i directly followed by a word character. */
  predicate MentionAt(s: string, i: int) {
    0 <= i && i + 1 < |s| && s[i] == '@' && IsWordChar(s[i + 1])
  }

  /** The independent description: one mention for every `@` directly followed by a word
      character, left to right, each the longest run of word characters after its `@`. */
  function MentionsOf(s: string): seq<string>
    decreases |s|
  {
    if s == [] then []
    else
      HeadMention(s) + MentionsOf(s[1..])
  }

  /** The mention starting at the first character, if one does. */
  function HeadMention(s: string): seq<string> {
    if MentionAt(s, 0) then [s[1..1 + WordRunLength(s[1..])]] else []
  }

  /** A run of word characters holds no `@`, so it contributes no mention. */
  lemma {:induction false} WordRunHasNoMentions(s: string, n: nat)
    requires n <= |s| && forall i :: 0 <= i < n ==> IsWordChar(s[i])
    ensures MentionsOf(s) == MentionsOf(s[n..])
    decreases n
  {
    if n > 0 {
      assert !MentionAt(s, 0);
      WordRunHasNoMentions(s[1..], n - 1);
      assert s[1..][n - 1..] == s[n..];
    }
  }

  /** The scan finds exactly the mentions of the independent description. */
  lemma {:induction false} ScanFindsEveryMention(s: string)
    ensures ScanMentions(s) == MentionsOf(s)
    decreases |s|
  {
    if |s| >= 2 && s[0] == '@' && IsWordChar(s[1]) {
      var n := WordRunLength(s[1..]);
      WordRunIsMaximal(s[1..]);
      ScanFindsEveryMention(s[1 + n..]);
      WordRunHasNoMentions(s[1..], n);
      assert s[1..][n..] == s[1 + n..];
    } else if s != [] {
      ScanFindsEveryMention(s[1..]);
    }
  }

  /** The list is empty exactly when no `@` is directly followed by a word character. */
  lemma {:induction false} NoMentionsIff(s: string)
    ensures ScanMentions(s) == [] <==> forall i :: !MentionAt(s, i)
    decreases |s|
  {
    ScanFindsEveryMention(s);
    if s != [] {
      NoMentionsIff(s[1..]);
      ScanFindsEveryMention(s[1..]);
      forall i | MentionAt(s[1..], i) ensures MentionAt(s, i + 1) {}
      forall i | MentionAt(s, i) && i > 0 ensures MentionAt(s[1..], i - 1) {}
    }
  }

  /** Mentions are kept in order and with repetitions: the list of a concatenation whose
      first part does not end in `@` is the two lists one after the other, provided the
      second part does not start with a word character. */
  lemma {:induction false} MentionsOfConcat(a: string, b: string)
    requires a == [] || a[|a| - 1] != '@'
    requires b == [] || !IsWordChar(b[0])
    ensures MentionsOf(a + b) == MentionsOf(a) + MentionsOf(b)
    decreases |a|
  {
    if a != [] {
      var t := a[1..];
      ConcatStep(a, b);
      assert t == [] || t[|t| - 1] == a[|a| - 1];
      MentionsOfConcat(t, b);
      assert MentionsOf(a) == HeadMention(a) + MentionsOf(t);
      assert HeadMention(a) + (MentionsOf(t) + MentionsOf(b)) == (HeadMention(a) + MentionsOf(t)) + MentionsOf(b);
    } else {
      assert a + b == b;
    }
  }

  /** One step of the concatenation: the first character of `a` is handled as in `a`. */
  lemma ConcatStep(a: string, b: string)
    requires a != [] && a[|a| - 1] != '@'
    requires b == [] || !IsWordChar(b[0])
    ensures MentionsOf(a + b) == HeadMention(a) + MentionsOf(a[1..] + b)
  {
    var ab := a + b;
    var t := a[1..] + b;
    assert ab[1..] == t;
    UnfoldMentions(ab);
    assert MentionsOf(ab) == HeadMention(ab) + MentionsOf(t);
    HeadMentionUnchanged(a, b);
  }

  lemma UnfoldMentions(s: string)
    requires s != []
    ensures MentionsOf(s) == HeadMention(s) + MentionsOf(s[1..])
  {
  }

  /** Appending text that starts with a non-word character does not change the mention
      at the first character. */
  lemma HeadMentionUnchanged(a: string, b: string)
    requires a != [] && a[|a| - 1] != '@'
    requires b == [] || !IsWordChar(b[0])
    ensures HeadMention(a + b) == HeadMention(a)
  {
    assert (a + b)[1..] == a[1..] + b;
    assert MentionAt(a + b, 0) == MentionAt(a, 0);
    if MentionAt(a, 0) {
      WordRunPrefix(a[1..], b);
      var n := WordRunLength(a[1..]);
      assert (a + b)[1..1 + n] == a[1..1 + n];
    }
  }

  /** A run of word characters cannot reach past a non-word character. */
  lemma {:induction false} WordRunPrefix(a: string, b: string)
    requires b == [] || !IsWordChar(b[0])
    ensures WordRunLength(a + b) == WordRunLength(a)
    decreases |a|
  {
    if a != [] {
      assert (a + b)[1..] == a[1..] + b;
      WordRunPrefix(a[1..], b);
    }
  }

  /** Text without `@` mentions nobody. */
  lemma NoAtNoMentions(s: string)
    requires forall i :: 0 <= i < |s| ==> s[i] != '@'
    ensures MentionsOf(s) == []
  {
    NoMentionsIff(s);
    ScanFindsEveryMention(s);
  }

  /** A lone mention: `@` and then word characters up to the end. */
  lemma SingleMention(s: string)
    requires |s| >= 2 && s[0] == '@' && forall i :: 1 <= i < |s| ==> IsWordChar(s[i])
    ensures MentionsOf(s) == [s[1..]]
  {
    var n := WordRunLength(s[1..]);
    WordRunIsMaximal(s[1..]);
    assert n == |s| - 1;
    assert MentionAt(s, 0);
    assert s[1..1 + n] == s[1..];
    NoAtNoMentions(s[1..]);
  }

  /** The example of the comment tests: "Hey @john, can you review this?" mentions "john". */
  lemma ExampleMention()
    ensures ScanMentions("Hey @john, can you review this?") == ["john"]
  {
    ExampleSplits();
    ExampleNoMentions();
    ExampleName();
    MentionBetween("Hey ", "@john", ", can you review this?");
  }

  /** The mentions of a text are those of its middle when the outer parts mention nobody
      and the parts join at non-word characters. */
  lemma MentionBetween(a: string, b: string, c: string)
    requires a == [] || a[|a| - 1] != '@'
    requires b == [] || b[|b| - 1] != '@'
    requires b == [] || !IsWordChar(b[0])
    requires c == [] || !IsWordChar(c[0])
    requires MentionsOf(a) == [] && MentionsOf(c) == []
    ensures ScanMentions(a + b + c) == MentionsOf(b)
  {
    var ab := a + b;
    assert ab == [] || ab[|ab| - 1] != '@' by {
      if b != [] {
        assert ab[|ab| - 1] == b[|b| - 1];
      } else {
        assert ab == a;
      }
    }
    MentionsOfConcat(ab, c);
    MentionsOfConcat(a, b);
    assert MentionsOf(ab + c) == MentionsOf(ab) + [];
    assert MentionsOf(ab) == [] + MentionsOf(b);
    ScanFindsEveryMention(ab + c);
  }

  lemma ExampleSplits()
    ensures "Hey @john, can you review this?" == "Hey " + "@john" + ", can you review this?"
    ensures "Hey "[3] != '@' && "@john"[4] != '@'
    ensures !IsWordChar("@john"[0]) && !IsWordChar(", can you review this?"[0])
  {
  }

  lemma ExampleNoMentions()
    ensures MentionsOf("Hey ") == [] && MentionsOf(", can you review this?") == []
  {
    NoAtNoMentions("Hey ");
    NoAtNoMentions(", can you review this?");
  }

  lemma ExampleName()
    ensures MentionsOf("@john") == ["john"]
  {
    SingleMention("@john");
  }
}
