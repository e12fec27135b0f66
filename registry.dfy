/** The card-kind catalog: only `text` and `mc_question` are registered. It
    answers lookups by kind tag, lists the tags and renders the description
    of every kind that the planner's prompt embeds. */
module Registry {
  import opened Wrappers
  import opened Strings
  import opened Js
  import opened CardTypes
  import TextCard
  import McQuestion

  const Catalog: seq<CardTypeDefinition> := [TextCard.Definition, McQuestion.Definition]

  /** Entry `i` is the first one whose tag is `tag`. */
  predicate FirstWithTag(catalog: seq<CardTypeDefinition>, tag: string, i: int) {
    0 <= i < |catalog| && catalog[i].cardType == tag
    && forall j :: 0 <= j < i ==> catalog[j].cardType != tag
  }

  /** `catalog.find(ct => ct.type === tag)`: the first entry with that tag. */
  function Find(catalog: seq<CardTypeDefinition>, tag: string): (r: Option<CardTypeDefinition>)
    ensures r.Some? ==> exists i :: FirstWithTag(catalog, tag, i) && catalog[i] == r.value
    ensures r.None? ==> forall i :: 0 <= i < |catalog| ==> catalog[i].cardType != tag
  {
    if |catalog| == 0 then None
    else if catalog[0].cardType == tag then
      assert FirstWithTag(catalog, tag, 0);
      Some(catalog[0])
    else
      var r := Find(catalog[1..], tag);
      assert r.Some? ==> exists i :: FirstWithTag(catalog, tag, i) && catalog[i] == r.value by {
        if r.Some? {
          var i :| FirstWithTag(catalog[1..], tag, i) && catalog[1..][i] == r.value;
          forall j | 0 <= j < i + 1 ensures catalog[j].cardType != tag {
            if j > 0 { assert catalog[j] == catalog[1..][j - 1]; }
          }
          assert FirstWithTag(catalog, tag, i + 1);
        }
      }
      r
  }

  /** `catalog.map(ct => ct.type)`. */
  function Tags(catalog: seq<CardTypeDefinition>): (r: seq<string>)
    ensures |r| == |catalog| && forall i :: 0 <= i < |r| ==> r[i] == catalog[i].cardType
  {
    seq(|catalog|, i requires 0 <= i < |catalog| => catalog[i].cardType)
  }

  /** `getCardType(tag)`. */
  function GetCardType(tag: string): Option<CardTypeDefinition> {
    Find(Catalog, tag)
  }

  /** `getCardTypeNames()`. */
  function GetCardTypeNames(): seq<string> {
    Tags(Catalog)
  }

  /** A tag is listed exactly when the lookup finds it, and what it finds is
      a catalog entry with that tag. */
  lemma LookupIffListed(tag: string)
    ensures tag in GetCardTypeNames() <==> GetCardType(tag).Some?
    ensures GetCardType(tag).Some? ==> GetCardType(tag).value in Catalog && GetCardType(tag).value.cardType == tag
  {
    var names := GetCardTypeNames();
    if tag in names {
      var i :| 0 <= i < |names| && names[i] == tag;
      assert Catalog[i].cardType == tag;
    }
  }

  /** A tag other than `text` and `mc_question` is not found. */
  lemma UnlistedNotFound(tag: string)
    requires tag != TextCard.Kind && tag != McQuestion.Kind
    ensures GetCardType(tag).None?
  {
    LookupIffListed(tag);
    CatalogOrder();
  }

  /** The catalog lists `text`, then `mc_question`. */
  lemma CatalogOrder()
    ensures GetCardTypeNames() == [TextCard.Kind, McQuestion.Kind]
  {
  }

  /** One kind's section of the planner prompt. */
  function Block(def: CardTypeDefinition, host: Host): (b: string)
    ensures Contains(b, def.name) && Contains(b, "(type: \"" + def.cardType + "\")")
  {
    var tail := "\n" + def.description + "\nBest used for: " + def.bestUsedFor
      + "\nOutput format: " + host.stringifyPretty(def.exampleOutput) + "\n";
    var typed := "(type: \"" + def.cardType + "\")";
    ContainsSecondAndFourth("\n## ", def.name, " ", typed, tail);
    "\n## " + def.name + " " + typed + tail
  }

  /** A concatenation of five pieces contains its second and fourth. */
  lemma ContainsSecondAndFourth(a: string, x: string, b: string, y: string, c: string)
    ensures Contains(a + x + b + y + c, x) && Contains(a + x + b + y + c, y)
  {
    ContainsMiddle(a, x, b + y + c);
    assert a + x + (b + y + c) == a + x + b + y + c;
    ContainsMiddle(a + x + b, y, c);
  }

  /** `getCardTypesDescription()`: the blocks of all kinds, in catalog order,
      separated by `\n---\n`. */
  function GetCardTypesDescription(host: Host): (d: string)
    ensures d == Block(Catalog[0], host) + "\n---\n" + Block(Catalog[1], host)
  {
    var blocks := seq(|Catalog|, i requires 0 <= i < |Catalog| => Block(Catalog[i], host));
    assert |blocks| == 2 && blocks[0] == Block(Catalog[0], host);
    assert blocks[1..] == [Block(Catalog[1], host)];
    assert Join(blocks[1..], "\n---\n") == Block(Catalog[1], host);
    assert Join(blocks, "\n---\n") == blocks[0] + "\n---\n" + Join(blocks[1..], "\n---\n");
    Join(blocks, "\n---\n")
  }

  /** `cardType.generate(context)` for a registered kind, given the model's
      reply to that kind's prompt. A kind's generator makes a card of its own
      kind, and fails exactly when the model call does. */
  function Generate(def: CardTypeDefinition, ctx: GeneratorContext, reply: ModelReply, host: Host): (r: Attempt)
    requires def in Catalog
    ensures reply.Rejected? <==> r.Threw?
    ensures r.Threw? ==> r.thrown == reply.thrown
    ensures r.Returned? ==> r.card.cardType == def.cardType
  {
    if def.cardType == TextCard.Kind then TextCard.Generate(ctx, reply, host)
    else McQuestion.Generate(ctx, reply, host)
  }
}
