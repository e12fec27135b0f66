/** The fill-in-the-blank card component: the text is split into literal runs
    and `{{id}}` placeholders, each placeholder offers the options of its
    blank, and the answers are checked against each blank's correct option
    once all blanks have a selection. */
module FillInBlankCard {
  import opened Wrappers
  import FillInBlank

  datatype BlankOption = BlankOption(text: string, isCorrect: bool)

  /** The card's content as the component receives it. */
  datatype Content = Content(text: string, blanks: map<string, seq<BlankOption>>, explanation: string)

  /** `options.find(opt => opt.isCorrect)?.text`: the text of the first
      correct option. */
  function CorrectText(options: seq<BlankOption>): (r: Option<string>)
    ensures r.None? <==> forall i :: 0 <= i < |options| ==> !options[i].isCorrect
    ensures r.Some? ==> exists i :: 0 <= i < |options| && options[i].isCorrect && options[i].text == r.value
                                    && forall j :: 0 <= j < i ==> !options[j].isCorrect
  {
    if |options| == 0 then None
    else if options[0].isCorrect then Some(options[0].text)
    else
      var rest := CorrectText(options[1..]);
      assert forall i :: 0 < i < |options| ==> options[i] == options[1..][i - 1];
      rest
  }

  /** The first correct option decides: a later correct option's text is
      not the answer unless it repeats the first one's. */
  lemma FirstCorrectOptionDecides(options: seq<BlankOption>, k: nat)
    requires k < |options| && options[k].isCorrect
    requires forall j :: 0 <= j < k ==> !options[j].isCorrect
    ensures CorrectText(options) == Some(options[k].text)
  {
    var r := CorrectText(options);
    var i :| 0 <= i < |options| && options[i].isCorrect && options[i].text == r.value
              && forall j :: 0 <= j < i ==> !options[j].isCorrect;
    assert options[i].isCorrect && options[k].isCorrect;
  }

  /** Two correct options: only the first one's text is right. */
  lemma SecondCorrectOptionIsWrong()
    ensures CorrectText([BlankOption("a", true), BlankOption("b", true)]) == Some("a")
  {
    FirstCorrectOptionDecides([BlankOption("a", true), BlankOption("b", true)], 0);
  }

  /** `selectedAnswers[blankId]`, `undefined` when nothing was picked. */
  function Selection(selected: map<string, string>, id: string): Option<string> {
    if id in selected then Some(selected[id]) else None
  }

  /** `allBlanksAnswered`: every blank has a non-empty selection. */
  predicate AllBlanksAnswered(blanks: map<string, seq<BlankOption>>, selected: map<string, string>) {
    forall id :: id in blanks ==> id in selected && selected[id] != ""
  }

  /** `checkAnswers`: every blank's selection equals the text of its first
      correct option (`undefined === undefined` included). */
  predicate CheckAnswers(blanks: map<string, seq<BlankOption>>, selected: map<string, string>) {
    forall id :: id in blanks ==> Selection(selected, id) == CorrectText(blanks[id])
  }

  /** Once every blank is answered, a blank without a correct option can
      never be right. */
  lemma NoCorrectOptionNeverRight(blanks: map<string, seq<BlankOption>>, selected: map<string, string>, id: string)
    requires AllBlanksAnswered(blanks, selected)
    requires id in blanks && CorrectText(blanks[id]).None?
    ensures !CheckAnswers(blanks, selected)
  {
    assert Selection(selected, id).Some?;
  }

  /** Answered and right means: each blank has a correct option and its
      selection is that option's text. */
  lemma RightAnswers(blanks: map<string, seq<BlankOption>>, selected: map<string, string>)
    requires AllBlanksAnswered(blanks, selected)
    ensures CheckAnswers(blanks, selected) <==>
      forall id :: id in blanks ==> CorrectText(blanks[id]) == Some(selected[id])
  {
  }

  // ---- The placeholder tokenizer ----------------------------------------

  /** `\w`. */
  predicate IsWordChar(c: char) {
    ('a' <= c <= 'z') || ('A' <= c <= 'Z') || ('0' <= c <= '9') || c == '_'
  }

  /** The length of the run of word characters starting at `i`. */
  function WordLen(s: string, i: nat): (n: nat)
    requires i <= |s|
    ensures i + n <= |s|
    decreases |s| - i
  {
    if i < |s| && IsWordChar(s[i]) then 1 + WordLen(s, i + 1) else 0
  }

  /** The run is made of word characters and stops at the end of `s` or at
      a non-word character. */
  lemma {:induction false} WordLenSpec(s: string, i: nat)
    requires i <= |s|
    ensures forall k :: i <= k < i + WordLen(s, i) ==> IsWordChar(s[k])
    ensures i + WordLen(s, i) == |s| || !IsWordChar(s[i + WordLen(s, i)])
    decreases |s| - i
  {
    if i < |s| && IsWordChar(s[i]) {
      WordLenSpec(s, i + 1);
    }
  }

  /** A run of word characters that ends at the end of `s` or before a
      non-word character has exactly the length `WordLen` gives. */
  lemma {:induction false} WordLenIs(s: string, i: nat, n: nat)
    requires i + n <= |s|
    requires forall k :: i <= k < i + n ==> IsWordChar(s[k])
    requires i + n == |s| || !IsWordChar(s[i + n])
    ensures WordLen(s, i) == n
    decreases n
  {
    if n > 0 {
      WordLenIs(s, i + 1, n - 1);
    }
  }

  /** `/\{\{(\w+)\}\}/` matches at `p`: two opening braces, a non-empty run
      of word characters, two closing braces. The greedy run cannot give
      back characters to help, since a closing brace is no word character. */
  predicate MatchAt(s: string, p: nat) {
    && p + 2 <= |s| && s[p] == '{' && s[p + 1] == '{'
    && var n := WordLen(s, p + 2);
       n > 0 && p + n + 4 <= |s| && s[p + n + 2] == '}' && s[p + n + 3] == '}'
  }

  /** The captured id of the match at `p`. */
  function MatchId(s: string, p: nat): string
    requires MatchAt(s, p)
  {
    s[p + 2..p + 2 + WordLen(s, p + 2)]
  }

  /** Where the match at `p` ends (`lastIndex` after it). */
  function MatchEnd(s: string, p: nat): (e: nat)
    requires MatchAt(s, p)
    ensures p < e <= |s| && e == p + |MatchId(s, p)| + 4
  {
    p + WordLen(s, p + 2) + 4
  }

  /** `blankRegex.exec(text)` with `lastIndex = from`: the leftmost match at
      or after `from`. */
  function NextMatch(s: string, from: nat): (r: Option<nat>)
    requires from <= |s|
    ensures r.Some? ==> from <= r.value < |s| && MatchAt(s, r.value)
    decreases |s| - from
  {
    if from == |s| then None
    else if MatchAt(s, from) then Some(from)
    else NextMatch(s, from + 1)
  }

  /** The match found is the leftmost one: none starts between `from` and
      it, nor anywhere after `from` when there is none. */
  lemma {:induction false} NextMatchIsLeftmost(s: string, from: nat)
    requires from <= |s|
    ensures var r := NextMatch(s, from);
      forall q :: from <= q < (if r.Some? then r.value else |s|) ==> !MatchAt(s, q)
    decreases |s| - from
  {
    if from < |s| && !MatchAt(s, from) {
      NextMatchIsLeftmost(s, from + 1);
    }
  }

  /** A rendered piece of the text: a literal run, or a placeholder with the
      options of its blank. */
  datatype Part = Literal(text: string) | Blank(id: string, options: seq<BlankOption>)

  /** `content.blanks[blankId] || []`. */
  function OptionsFor(blanks: map<string, seq<BlankOption>>, id: string): (r: seq<BlankOption>)
    ensures id !in blanks ==> r == []
  {
    if id in blanks then blanks[id] else []
  }

  /** The parts of `s` from `from` on, as the render loop produces them. */
  function Parts(s: string, blanks: map<string, seq<BlankOption>>, from: nat): seq<Part>
    requires from <= |s|
    decreases |s| - from
  {
    match NextMatch(s, from)
    case None => if from < |s| then [Literal(s[from..])] else []
    case Some(p) =>
      var id := MatchId(s, p);
      (if p > from then [Literal(s[from..p])] else []) + [Blank(id, OptionsFor(blanks, id))]
        + Parts(s, blanks, MatchEnd(s, p))
  }

  /** Parts when no placeholder follows `from`. */
  lemma PartsWithoutMatch(s: string, blanks: map<string, seq<BlankOption>>, from: nat)
    requires from <= |s| && NextMatch(s, from).None?
    ensures Parts(s, blanks, from) == if from < |s| then [Literal(s[from..])] else []
  {
  }

  /** Parts when the next placeholder is at `p`. */
  lemma PartsWithMatch(s: string, blanks: map<string, seq<BlankOption>>, from: nat, p: nat)
    requires from <= |s| && NextMatch(s, from) == Some(p)
    ensures MatchAt(s, p)
    ensures Parts(s, blanks, from) ==
      (if p > from then [Literal(s[from..p])] else []) + [Blank(MatchId(s, p), OptionsFor(blanks, MatchId(s, p)))]
        + Parts(s, blanks, MatchEnd(s, p))
  {
  }

  /** The text a part stands for. */
  function PartText(part: Part): string {
    match part
    case Literal(t) => t
    case Blank(id, _) => "{{" + id + "}}"
  }

  function Render(parts: seq<Part>): string {
    if |parts| == 0 then "" else PartText(parts[0]) + Render(parts[1..])
  }

  lemma {:induction false} RenderAppend(a: seq<Part>, b: seq<Part>)
    ensures Render(a + b) == Render(a) + Render(b)
  {
    if |a| > 0 {
      assert (a + b)[1..] == a[1..] + b;
      RenderAppend(a[1..], b);
    } else {
      assert a + b == b;
    }
  }

  /** The text of a match is the placeholder of its id. */
  lemma MatchText(s: string, p: nat)
    requires MatchAt(s, p)
    ensures s[p..MatchEnd(s, p)] == "{{" + MatchId(s, p) + "}}"
  {
    var n := WordLen(s, p + 2);
    assert s[p..p + n + 4] == [s[p], s[p + 1]] + s[p + 2..p + 2 + n] + [s[p + n + 2], s[p + n + 3]];
  }

  lemma SplitThree(s: string, a: nat, b: nat, c: nat)
    requires a <= b <= c <= |s|
    ensures s[a..] == s[a..b] + s[b..c] + s[c..]
  {
    assert s[a..] == s[a..b] + s[b..];
    assert s[b..] == s[b..c] + s[c..];
  }

  /** Round trip: putting the literals and `{{id}}` placeholders back
      together gives the text from `from` on. */
  lemma {:induction false} RenderParts(s: string, blanks: map<string, seq<BlankOption>>, from: nat)
    requires from <= |s|
    ensures Render(Parts(s, blanks, from)) == s[from..]
    decreases |s| - from
  {
    var next := NextMatch(s, from);
    if next.None? {
      PartsWithoutMatch(s, blanks, from);
      if from < |s| {
        assert Render([Literal(s[from..])]) == s[from..];
      }
    } else {
      var p := next.value;
      PartsWithMatch(s, blanks, from, p);
      var id := MatchId(s, p);
      var e := MatchEnd(s, p);
      var head := if p > from then [Literal(s[from..p])] else [];
      var blank := [Blank(id, OptionsFor(blanks, id))];
      RenderParts(s, blanks, e);
      MatchText(s, p);
      RenderAppend(head, blank);
      RenderAppend(head + blank, Parts(s, blanks, e));
      assert Render(blank) == "{{" + id + "}}";
      assert Render(head) == s[from..p];
      SplitThree(s, from, p, e);
    }
  }

  /** A placeholder inside a piece of `s` is a placeholder of `s`. */
  lemma MatchInInfix(s: string, a: nat, b: nat, j: nat)
    requires a <= b <= |s|
    requires MatchAt(s[a..b], j)
    ensures MatchAt(s, a + j)
  {
    var t := s[a..b];
    var n := WordLen(t, j + 2);
    WordLenSpec(t, j + 2);
    assert forall k :: a + j + 2 <= k < a + j + 2 + n ==> s[k] == t[k - a];
    assert s[a + j + 2 + n] == t[j + 2 + n];
    WordLenIs(s, a + j + 2, n);
  }

  /** A piece of `s` with no placeholder of `s` starting in it holds no
      complete placeholder. */
  lemma NoMatchInInfix(s: string, a: nat, b: nat)
    requires a <= b <= |s|
    requires forall q :: a <= q < b ==> !MatchAt(s, q)
    ensures forall j :: 0 <= j < b - a ==> !MatchAt(s[a..b], j)
  {
    forall j | 0 <= j < b - a
      ensures !MatchAt(s[a..b], j)
    {
      if MatchAt(s[a..b], j) {
        MatchInInfix(s, a, b, j);
        assert false;
      }
    }
  }

  /** Literal runs are never empty and hold no complete placeholder; every
      placeholder's options are its blank's, or none for an unknown id. */
  lemma {:induction false} PartsWellFormed(s: string, blanks: map<string, seq<BlankOption>>, from: nat)
    requires from <= |s|
    ensures var parts := Parts(s, blanks, from);
      forall i :: 0 <= i < |parts| ==>
        && (parts[i].Literal? ==> parts[i].text != "" && forall j :: 0 <= j < |parts[i].text| ==> !MatchAt(parts[i].text, j))
        && (parts[i].Blank? ==> parts[i].id != "" && parts[i].options == OptionsFor(blanks, parts[i].id))
    decreases |s| - from
  {
    var next := NextMatch(s, from);
    NextMatchIsLeftmost(s, from);
    if next.None? {
      PartsWithoutMatch(s, blanks, from);
      NoMatchInInfix(s, from, |s|);
      assert s[from..|s|] == s[from..];
    } else {
      var p := next.value;
      PartsWithMatch(s, blanks, from, p);
      PartsWellFormed(s, blanks, MatchEnd(s, p));
      NoMatchInInfix(s, from, p);
    }
  }

  /** No match starts where no opening brace follows `from`. */
  lemma {:induction false} NoBraceNoMatch(s: string, from: nat)
    requires from <= |s|
    requires forall q :: from <= q < |s| ==> s[q] != '{'
    ensures NextMatch(s, from).None?
    decreases |s| - from
  {
    if from < |s| {
      NoBraceNoMatch(s, from + 1);
    }
  }

  /** With no match before `p` and one at `p`, the scan from `from` stops
      at `p`. */
  lemma {:induction false} NextMatchAt(s: string, from: nat, p: nat)
    requires from <= p < |s| && MatchAt(s, p)
    requires forall q :: from <= q < p ==> s[q] != '{'
    ensures NextMatch(s, from) == Some(p)
    decreases p - from
  {
    if from < p {
      NextMatchAt(s, from + 1, p);
    }
  }

  /** In `pre + "{{" + id + "}}" + post`, with no brace in `pre`, the scan
      from the start finds the placeholder right after `pre`. */
  lemma PlaceholderAfterPrefix(pre: string, id: string, post: string)
    requires '{' !in pre
    requires |id| > 0 && forall k :: 0 <= k < |id| ==> IsWordChar(id[k])
    ensures var s := pre + "{{" + id + "}}" + post;
      && NextMatch(s, 0) == Some(|pre|) && MatchId(s, |pre|) == id
      && MatchEnd(s, |pre|) == |s| - |post|
  {
    var s := pre + "{{" + id + "}}" + post;
    var p := |pre|;
    assert s[p] == '{' && s[p + 1] == '{';
    assert forall k :: 0 <= k < |id| ==> s[p + 2 + k] == id[k];
    assert s[p + 2 + |id|] == '}' && s[p + 3 + |id|] == '}';
    WordLenIs(s, p + 2, |id|);
    assert MatchAt(s, p);
    assert forall q :: 0 <= q < p ==> s[q] == pre[q];
    NextMatchAt(s, 0, p);
    assert s[p + 2..p + 2 + |id|] == id;
  }

  /** After the placeholder, a `post` with no brace holds no match. */
  lemma NoMatchInSuffix(s: string, post: string)
    requires |post| <= |s| && s[|s| - |post|..] == post && '{' !in post
    ensures NextMatch(s, |s| - |post|).None?
  {
    var e := |s| - |post|;
    assert forall q :: e <= q < |s| ==> s[q] == post[q - e];
    NoBraceNoMatch(s, e);
  }

  /** A text with a single placeholder, and no other opening brace, splits
      into the run before it, the placeholder and the run after it; empty
      runs are left out. */
  lemma SinglePlaceholder(pre: string, id: string, post: string, blanks: map<string, seq<BlankOption>>)
    requires '{' !in pre && '{' !in post
    requires |id| > 0 && forall k :: 0 <= k < |id| ==> IsWordChar(id[k])
    ensures Parts(pre + "{{" + id + "}}" + post, blanks, 0) ==
      (if |pre| > 0 then [Literal(pre)] else []) + [Blank(id, OptionsFor(blanks, id))]
        + (if |post| > 0 then [Literal(post)] else [])
  {
    var s := pre + "{{" + id + "}}" + post;
    PlaceholderAfterPrefix(pre, id, post);
    var e := |s| - |post|;
    assert s[e..] == post;
    assert s[0..|pre|] == pre;
    NoMatchInSuffix(s, post);
    PartsOfOneMatch(s, blanks, |pre|);
  }

  /** A text whose only match is at `p` splits around it. */
  lemma PartsOfOneMatch(s: string, blanks: map<string, seq<BlankOption>>, p: nat)
    requires NextMatch(s, 0) == Some(p)
    requires MatchEnd(s, p) <= |s| && NextMatch(s, MatchEnd(s, p)).None?
    ensures var e, id := MatchEnd(s, p), MatchId(s, p);
      Parts(s, blanks, 0) == (if p > 0 then [Literal(s[0..p])] else []) + [Blank(id, OptionsFor(blanks, id))]
        + (if e < |s| then [Literal(s[e..])] else [])
  {
    PartsWithMatch(s, blanks, 0, p);
    PartsWithoutMatch(s, blanks, MatchEnd(s, p));
  }

  /** The generator's fallback text renders as one placeholder between two
      runs, and its id is the fallback's only blank. */
  lemma FallbackPlaceholderIsItsBlank(blanks: map<string, seq<BlankOption>>)
    ensures Parts(FillInBlank.FallbackText, blanks, 0) ==
      [Literal("The key concept here is "), Blank(FillInBlank.FallbackBlankId, OptionsFor(blanks, FillInBlank.FallbackBlankId)), Literal(".")]
    ensures FillInBlank.Fallback().fields["blanks"].fields.Keys == {FillInBlank.FallbackBlankId}
  {
    var pre, id, post := "The key concept here is ", FillInBlank.FallbackBlankId, ".";
    assert forall k :: 0 <= k < |id| ==> IsWordChar(id[k]);
    SinglePlaceholder(pre, id, post, blanks);
  }

  /** One turn of the render loop keeps `parts + Parts(from lastIndex)`
      equal to the parts of the whole text. */
  lemma RenderStep(text: string, blanks: map<string, seq<BlankOption>>, lastIndex: nat, index: nat, parts: seq<Part>, whole: seq<Part>)
    requires lastIndex <= |text| && NextMatch(text, lastIndex) == Some(index)
    requires parts + Parts(text, blanks, lastIndex) == whole
    ensures var blank := Blank(MatchId(text, index), OptionsFor(blanks, MatchId(text, index)));
      && (index > lastIndex ==>
            parts + [Literal(text[lastIndex..index])] + [blank] + Parts(text, blanks, MatchEnd(text, index)) == whole)
      && (index == lastIndex ==> parts + [blank] + Parts(text, blanks, MatchEnd(text, index)) == whole)
  {
    PartsWithMatch(text, blanks, lastIndex, index);
    if index == lastIndex {
      assert parts + [] == parts;
    }
  }

  /** `renderTextWithBlanks`: the exec loop that pushes the text before each
      match, then the match's placeholder, then the remaining text. */
  method RenderTextWithBlanks(content: Content) returns (parts: seq<Part>)
    ensures parts == Parts(content.text, content.blanks, 0)
  {
    var text := content.text;
    ghost var whole := Parts(text, content.blanks, 0);
    parts := [];
    var lastIndex := 0;
    var found := NextMatch(text, lastIndex);
    while found.Some?
      invariant lastIndex <= |text|
      invariant found == NextMatch(text, lastIndex)
      invariant parts + Parts(text, content.blanks, lastIndex) == whole
      decreases |text| - lastIndex
    {
      var index := found.value;
      RenderStep(text, content.blanks, lastIndex, index, parts, whole);
      if index > lastIndex {
        parts := parts + [Literal(text[lastIndex..index])];
      }
      var blankId := MatchId(text, index);
      parts := parts + [Blank(blankId, OptionsFor(content.blanks, blankId))];
      lastIndex := MatchEnd(text, index);
      found := NextMatch(text, lastIndex);
    }
    PartsWithoutMatch(text, content.blanks, lastIndex);
    if lastIndex < |text| {
      parts := parts + [Literal(text[lastIndex..])];
    }
  }

  // ---- The component -----------------------------------------------------

  class Card {
    const content: Content
    var selectedAnswers: map<string, string>
    var hasSubmitted: bool

    /** A submitted card had every blank answered. */
    ghost predicate Valid()
      reads this
    {
      hasSubmitted ==> AllBlanksAnswered(content.blanks, selectedAnswers)
    }

    constructor (content: Content)
      ensures Valid()
      ensures this.content == content && selectedAnswers == map[] && !hasSubmitted
    {
      this.content := content;
      selectedAnswers := map[];
      hasSubmitted := false;
    }

    /** `isCorrect`: false until submitted. */
    predicate IsCorrect()
      reads this
    {
      hasSubmitted && CheckAnswers(content.blanks, selectedAnswers)
    }

    /** `handleSelect`: ignored after submitting; otherwise sets that blank's
        selection and no other. */
    method HandleSelect(blankId: string, option: BlankOption)
      requires Valid()
      modifies this
      ensures Valid()
      ensures old(hasSubmitted) ==> selectedAnswers == old(selectedAnswers)
      ensures !old(hasSubmitted) ==> selectedAnswers == old(selectedAnswers)[blankId := option.text]
      ensures hasSubmitted == old(hasSubmitted)
    {
      if hasSubmitted {
        return;
      }
      selectedAnswers := selectedAnswers[blankId := option.text];
    }

    /** `handleSubmit`: a no-op unless all blanks are answered. */
    method HandleSubmit()
      requires Valid()
      modifies this
      ensures Valid()
      ensures selectedAnswers == old(selectedAnswers)
      ensures hasSubmitted == (old(hasSubmitted) || AllBlanksAnswered(content.blanks, old(selectedAnswers)))
    {
      if !AllBlanksAnswered(content.blanks, selectedAnswers) {
        return;
      }
      hasSubmitted := true;
    }

    /** `handleContinue`: reports `isCorrect`. */
    method HandleContinue() returns (reported: bool)
      ensures reported ==> hasSubmitted
      ensures reported <==> hasSubmitted && forall id :: id in content.blanks ==>
        Selection(selectedAnswers, id) == CorrectText(content.blanks[id])
    {
      reported := IsCorrect();
    }
  }
}
