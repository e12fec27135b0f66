/** The planner's handling of the model's lesson plan: keep the entries of a
    registered kind, cut the list to 8, and accept it only with at least 5
    entries covering every registered kind; anything else, including a reply
    that does not parse or has the wrong shape, gives the fixed default plan,
    which is not checked against the catalog. */
module Planner {
  import opened Wrappers
  import opened Strings
  import opened Js
  import opened Fences
  import opened CardTypes
  import Registry

  const MaxCards := 8
  const MinCards := 5

  /** What an empty reply is read as. */
  const EmptyPlanText := "{\"cards\":[]}"

  function Entry(cardType: string, focus: string): PlannedCard {
    PlannedCard(cardType, Some(Str(focus)))
  }

  /** `getDefaultPlan()`. */
  function DefaultPlan(): LessonPlan {
    LessonPlan([
      Entry("text", "introduce the main concept of this lesson"),
      Entry("mc_question", "test basic understanding"),
      Entry("fill_in_blank", "practice applying the concept"),
      Entry("infographic", "visualize key concepts and relationships"),
      Entry("interactive_visual", "interactively explore the concept")])
  }

  /** What the filter keeps of one entry: the entry itself when its `type`
      is one of the registered tags, nothing otherwise. */
  function Kept(entry: Value, names: seq<string>): seq<PlannedCard>
    requires !entry.Null?
  {
    match Member(Some(entry), "type").value
    case Some(Str(t)) =>
      if t in names then [PlannedCard(t, Member(Some(entry), "focus").value)] else []
    case _ => []
  }

  /** `entries.filter(card => names.includes(card.type))`; `None` when it
      throws, which a `null` entry makes it do. */
  function Filter(entries: seq<Value>, names: seq<string>): Option<seq<PlannedCard>> {
    if |entries| == 0 then Some([])
    else if entries[0].Null? then None
    else
      match Filter(entries[1..], names)
      case None => None
      case Some(rest) => Some(Kept(entries[0], names) + rest)
  }

  /** The filter fails exactly on a `null` entry; otherwise it keeps only
      entries of a registered kind, never more than it was given. */
  lemma {:induction false} FilterShape(entries: seq<Value>, names: seq<string>)
    ensures var r := Filter(entries, names);
      && (r.None? <==> exists i :: 0 <= i < |entries| && entries[i].Null?)
      && (r.Some? ==> |r.value| <= |entries| && forall i :: 0 <= i < |r.value| ==> r.value[i].cardType in names)
  {
    if |entries| > 0 && !entries[0].Null? {
      FilterShape(entries[1..], names);
      if Filter(entries[1..], names).None? {
        var i :| 0 <= i < |entries[1..]| && entries[1..][i].Null?;
        assert entries[i + 1].Null?;
      } else {
        forall i | 0 <= i < |entries| ensures !entries[i].Null? {
          if i > 0 { assert entries[i] == entries[1..][i - 1]; }
        }
      }
    }
  }

  /** Filtering keeps the model's order: it distributes over concatenation. */
  lemma {:induction false} FilterAppend(a: seq<Value>, b: seq<Value>, names: seq<string>)
    requires Filter(a, names).Some? && Filter(b, names).Some?
    ensures Filter(a + b, names) == Some(Filter(a, names).value + Filter(b, names).value)
  {
    if |a| == 0 {
      assert a == [];
      EmptyPrefixKeepsNothing(b, names);
    } else {
      FilterAppend(a[1..], b, names);
      assert (a + b)[1..] == a[1..] + b;
      FilterStep(a, names);
      FilterStep(a + b, names);
      var head, tail, rest := Kept(a[0], names), Filter(a[1..], names).value, Filter(b, names).value;
      AppendAssociates(head, tail, rest);
    }
  }

  /** One step of the filter over a list whose first entry is not `null`. */
  lemma FilterStep(s: seq<Value>, names: seq<string>)
    requires |s| > 0 && !s[0].Null? && Filter(s[1..], names).Some?
    ensures Filter(s, names) == Some(Kept(s[0], names) + Filter(s[1..], names).value)
  {
  }

  lemma EmptyPrefixKeepsNothing(b: seq<Value>, names: seq<string>)
    requires Filter(b, names).Some?
    ensures Filter([] + b, names) == Some(Filter([], names).value + Filter(b, names).value)
  {
    assert [] + b == b;
    assert [] + Filter(b, names).value == Filter(b, names).value;
  }

  /** `plan.cards.filter(...).slice(0, 8)`; `None` when reading the plan
      throws: a `null` plan, `cards` that is not an array, a `null` entry. */
  function ValidCards(plan: Value, names: seq<string>): (r: Option<seq<PlannedCard>>)
    ensures r.Some? ==> |r.value| <= MaxCards && forall i :: 0 <= i < |r.value| ==> r.value[i].cardType in names
  {
    if plan.Null? then None
    else
      match Member(Some(plan), "cards").value
      case Some(Arr(entries)) =>
        FilterShape(entries, names);
        (match Filter(entries, names)
         case Some(cards) => Some(cards[..Min(|cards|, MaxCards)])
         case None => None)
      case _ => None
  }

  /** Every tag in `names` is the kind of some card. */
  predicate Covers(cards: seq<PlannedCard>, names: seq<string>) {
    forall n :: n in names ==> exists i :: 0 <= i < |cards| && cards[i].cardType == n
  }

  /** What `planLesson` makes of the reply text, given the registered tags
      `availableTypes`: the parsed and filtered plan when it is long enough
      and covers every tag, the default plan otherwise. */
  function PlanFrom(text: string, host: Host, names: seq<string>): (p: LessonPlan)
    ensures |p.cards| > 0
    ensures p != DefaultPlan() ==>
      && MinCards <= |p.cards| <= MaxCards
      && (forall i :: 0 <= i < |p.cards| ==> p.cards[i].cardType in names)
      && Covers(p.cards, names)
    ensures p != DefaultPlan() ==>
      && ParseReply(text, EmptyPlanText, host).Some?
      && ValidCards(ParseReply(text, EmptyPlanText, host).value, names) == Some(p.cards)
  {
    match ParseReply(text, EmptyPlanText, host)
    case None => DefaultPlan()
    case Some(plan) =>
      match ValidCards(plan, names)
      case None => DefaultPlan()
      case Some(cards) =>
        if |cards| < MinCards || !Covers(cards, names) then DefaultPlan()
        else LessonPlan(cards)
  }

  /** `planLesson`, given the model's reply: the call itself may reject;
      every other failure ends in the default plan. */
  function PlanLesson(reply: ModelReply, host: Host): (r: Result<LessonPlan, Thrown>)
    ensures reply.Rejected? <==> r.Err?
    ensures r.Err? ==> r.error == reply.thrown
    ensures r.Ok? ==> |r.value.cards| > 0
    ensures r.Ok? && r.value != DefaultPlan() ==>
      && MinCards <= |r.value.cards| <= MaxCards
      && (forall i :: 0 <= i < |r.value.cards| ==> r.value.cards[i].cardType in Registry.GetCardTypeNames())
      && Covers(r.value.cards, Registry.GetCardTypeNames())
    ensures r.Ok? && r.value != DefaultPlan() ==>
      && ParseReply(reply.text, EmptyPlanText, host).Some?
      && ValidCards(ParseReply(reply.text, EmptyPlanText, host).value, Registry.GetCardTypeNames()) == Some(r.value.cards)
  {
    match reply
    case Rejected(e) => Err(e)
    case Answered(text) => Ok(PlanFrom(text, host, Registry.GetCardTypeNames()))
  }

  /** The kept list of a plan object is the filtered entries, in the model's
      order, cut to the first eight. */
  lemma ValidCardsIsCut(entries: seq<Value>, names: seq<string>)
    requires Filter(entries, names).Some?
    ensures var kept := Filter(entries, names).value;
      ValidCards(Obj(map["cards" := Arr(entries)]), names) == Some(kept[..Min(|kept|, MaxCards)])
  {
  }

  /** Conversely, a parsed plan whose kept list has at least five entries and
      covers every tag is accepted as exactly that list. */
  lemma PlanAccepted(text: string, host: Host, names: seq<string>)
    requires ParseReply(text, EmptyPlanText, host).Some?
    requires var cards := ValidCards(ParseReply(text, EmptyPlanText, host).value, names);
      cards.Some? && |cards.value| >= MinCards && Covers(cards.value, names)
    ensures PlanFrom(text, host, names) == LessonPlan(ValidCards(ParseReply(text, EmptyPlanText, host).value, names).value)
  {
  }

  /** A kind missing from the first eight kept entries is missing after the
      cut, so the cut list does not cover the tags. */
  lemma CutMissesKind(kept: seq<PlannedCard>, names: seq<string>, kind: string)
    requires kind in names
    requires forall i :: 0 <= i < |kept| && i < MaxCards ==> kept[i].cardType != kind
    ensures !Covers(kept[..Min(|kept|, MaxCards)], names)
  {
    var cards := kept[..Min(|kept|, MaxCards)];
    forall i | 0 <= i < |cards| ensures cards[i].cardType != kind {
      assert cards[i] == kept[i];
    }
  }

  /** The cut to 8 comes before the coverage check: a tag that appears only
      after the eighth kept entry forces the default plan. */
  lemma KindOnlyAfterEighth(text: string, host: Host, entries: seq<Value>, names: seq<string>, kind: string)
    requires ParseReply(text, EmptyPlanText, host) == Some(Obj(map["cards" := Arr(entries)]))
    requires kind in names
    requires Filter(entries, names).Some?
    requires var kept := Filter(entries, names).value;
      forall i :: 0 <= i < |kept| && i < MaxCards ==> kept[i].cardType != kind
    ensures PlanFrom(text, host, names) == DefaultPlan()
  {
    var kept := Filter(entries, names).value;
    CutMissesKind(kept, names, kind);
    assert ValidCards(Obj(map["cards" := Arr(entries)]), names) == Some(kept[..Min(|kept|, MaxCards)]);
  }

  /** An empty reply is read as `{"cards":[]}`. */
  lemma EmptyReplyParsesNoCards(host: Host)
    requires ParsesDefaults(host)
    ensures ParseReply("", EmptyPlanText, host) == Some(Obj(map["cards" := Arr([])]))
  {
    assert !HasBacktick(EmptyPlanText) by {
      forall i | 0 <= i < |EmptyPlanText| ensures EmptyPlanText[i] != '`' {
      }
    }
    EmptyReplyParsesDefault(EmptyPlanText, host);
  }

  /** That keeps no card, so the plan is the default. */
  lemma EmptyReplyGivesDefault(host: Host, names: seq<string>)
    requires ParsesDefaults(host)
    ensures PlanFrom("", host, names) == DefaultPlan()
  {
    EmptyReplyParsesNoCards(host);
    NoCardsKeepNone(names);
  }

  lemma NoCardsKeepNone(names: seq<string>)
    ensures ValidCards(Obj(map["cards" := Arr([])]), names) == Some([])
  {
    assert Filter([], names) == Some([]);
  }

  /** So `planLesson` itself, whose tags are the catalog's, answers an empty
      reply with the default plan. */
  lemma EmptyReplyPlansDefault(host: Host)
    requires ParsesDefaults(host)
    ensures PlanLesson(Answered(""), host) == Ok(DefaultPlan())
  {
    EmptyReplyGivesDefault(host, Registry.GetCardTypeNames());
  }

  /** The default plan has five entries, in the order text, mc_question,
      fill_in_blank, infographic, interactive_visual, and the last three are
      kinds the catalog does not register. */
  lemma DefaultPlanKinds()
    ensures |DefaultPlan().cards| == 5
    ensures forall i :: 0 <= i < 5 ==>
      DefaultPlan().cards[i].cardType == ["text", "mc_question", "fill_in_blank", "infographic", "interactive_visual"][i]
    ensures forall i :: 0 <= i < 5 ==> (DefaultPlan().cards[i].cardType in Registry.GetCardTypeNames() <==> i < 2)
  {
    Registry.CatalogOrder();
  }
}
