/** OData metadata clean-up (`MetadataAdjuster`): every `Property` of type "Edm.Stream"
    declared by an `EntityType` of the document's schema is removed. The schema is the
    first child element of the first child element of the root. Parsing the text into a
    tree and printing the tree back are library oracles.

    One pass of `Adjust` removes, in each EntityType, only the FIRST such Property: LINQ to
    XML stops enumerating an element's children once the child it is positioned on is
    removed, so the pass is repeated until `Count` is 0. */
module MetadataAdjuster {
  import opened Common
  import opened Xml

  const EntityTypeName := "EntityType"
  const PropertyName := "Property"
  const TypeAttr := "Type"
  const StreamType := "Edm.Stream"
  const NoElements := "Sequence contains no elements"

  /** A `Property` element whose `Type` attribute is exactly "Edm.Stream". */
  predicate IsStream(e: Element) {
    e.name == PropertyName && TypeAttr in e.attrs && e.attrs[TypeAttr] == StreamType
  }

  predicate IsEntityType(e: Element) {
    e.name == EntityTypeName
  }

  /** How many of the elements are stream properties. */
  function Streams(cs: seq<Element>): nat {
    if cs == [] then 0 else (if IsStream(cs[0]) then 1 else 0) + Streams(cs[1..])
  }

  /** The elements without their stream properties, the others in order. */
  function NonStreams(cs: seq<Element>): seq<Element> {
    if cs == [] then [] else (if IsStream(cs[0]) then [] else [cs[0]]) + NonStreams(cs[1..])
  }

  /** The elements without their first stream property. */
  function DropFirstStream(cs: seq<Element>): seq<Element> {
    if cs == [] then [] else if IsStream(cs[0]) then cs[1..] else [cs[0]] + DropFirstStream(cs[1..])
  }

  /** `Count` on the schema's children: the stream properties their EntityTypes declare. */
  function EntityStreams(cs: seq<Element>): nat {
    if cs == [] then 0 else (if IsEntityType(cs[0]) then Streams(cs[0].children) else 0) + EntityStreams(cs[1..])
  }

  /** One pass of the removal over the schema's children. */
  function Pass(cs: seq<Element>): seq<Element> {
    if cs == [] then []
    else [if IsEntityType(cs[0]) then cs[0].(children := DropFirstStream(cs[0].children)) else cs[0]] + Pass(cs[1..])
  }

  /** What the adjustment is meant to reach: every EntityType without stream properties,
      every other child as it was. */
  function Stripped(cs: seq<Element>): seq<Element> {
    if cs == [] then []
    else [if IsEntityType(cs[0]) then cs[0].(children := NonStreams(cs[0].children)) else cs[0]] + Stripped(cs[1..])
  }

  /** Dropping the first stream property removes one stream property when there is one,
      changes nothing when there is none, and leaves the other elements as they were. */
  lemma {:induction false} DropFirstStreamFacts(cs: seq<Element>)
    ensures Streams(cs) > 0 ==> Streams(DropFirstStream(cs)) == Streams(cs) - 1
    ensures Streams(cs) == 0 ==> DropFirstStream(cs) == cs
    ensures NonStreams(DropFirstStream(cs)) == NonStreams(cs)
  {
    if cs != [] && !IsStream(cs[0]) {
      DropFirstStreamFacts(cs[1..]);
      assert DropFirstStream(cs) == [cs[0]] + DropFirstStream(cs[1..]);
      assert (if Streams(cs[1..]) == 0 then DropFirstStream(cs[1..]) == cs[1..] else true);
      assert cs == [cs[0]] + cs[1..];
    }
  }

  /** The non-stream part holds no stream property. */
  lemma {:induction false} NonStreamsClean(cs: seq<Element>)
    ensures Streams(NonStreams(cs)) == 0
  {
    if cs != [] {
      NonStreamsClean(cs[1..]);
      if IsStream(cs[0]) {
        assert NonStreams(cs) == NonStreams(cs[1..]);
      } else {
        assert NonStreams(cs) == [cs[0]] + NonStreams(cs[1..]);
        assert NonStreams(cs)[1..] == NonStreams(cs[1..]);
      }
    }
  }

  /** Elements without stream properties are their own non-stream part. */
  lemma {:induction false} NonStreamsKeeps(cs: seq<Element>)
    requires Streams(cs) == 0
    ensures NonStreams(cs) == cs
  {
    if cs != [] {
      NonStreamsKeeps(cs[1..]);
      assert NonStreams(cs) == [cs[0]] + cs[1..];
    }
  }

  /** A pass keeps the target, removes at least one stream property while any remains,
      and can decrease the count by no more than there are. */
  lemma {:induction false} PassFacts(cs: seq<Element>)
    ensures Stripped(Pass(cs)) == Stripped(cs)
    ensures EntityStreams(cs) > 0 ==> EntityStreams(Pass(cs)) < EntityStreams(cs)
    ensures EntityStreams(Pass(cs)) <= EntityStreams(cs)
  {
    if cs != [] {
      PassFacts(cs[1..]);
      if IsEntityType(cs[0]) {
        DropFirstStreamFacts(cs[0].children);
      }
    }
  }

  /** With no stream property left the schema already is its target. */
  lemma {:induction false} NoStreamsIsStripped(cs: seq<Element>)
    requires EntityStreams(cs) == 0
    ensures Stripped(cs) == cs
  {
    if cs != [] {
      NoStreamsIsStripped(cs[1..]);
      if IsEntityType(cs[0]) {
        NonStreamsKeeps(cs[0].children);
      }
      assert cs == [cs[0]] + cs[1..];
    }
  }

  /** The target has no stream property left, so adjusting it again changes nothing. */
  lemma {:induction false} StrippedIsFinal(cs: seq<Element>)
    ensures EntityStreams(Stripped(cs)) == 0
    ensures Stripped(Stripped(cs)) == Stripped(cs)
  {
    if cs != [] {
      StrippedIsFinal(cs[1..]);
      if IsEntityType(cs[0]) {
        NonStreamsClean(cs[0].children);
        NonStreamsKeeps(NonStreams(cs[0].children));
      }
    }
    NoStreamsIsStripped(Stripped(cs));
  }

  /** `root.Elements().First().Elements().First()`: the schema, or the exception of a
      missing first child. */
  function Schema(root: Element): Attempt<Element> {
    if root.children == [] || root.children[0].children == [] then Threw(NoElements)
    else Value(root.children[0].children[0])
  }

  /** The root with the schema replaced and everything else as it was. */
  function WithSchema(root: Element, schema: Element): Element
    requires Schema(root).Value?
  {
    var container := root.children[0];
    root.(children := [container.(children := [schema] + container.children[1..])] + root.children[1..])
  }

  /** `Count(root)`. */
  function Count(root: Element): (r: Attempt<nat>)
    ensures r.Value? <==> Schema(root).Value?
    ensures r.Value? ==> r.value == EntityStreams(Schema(root).value.children)
  {
    match Schema(root)
    case Threw(m) => Threw(m)
    case Value(s) => Value(EntityStreams(s.children))
  }

  /** The do-while of `Adjust` on a document's root: passes until `Count` is 0. The result
      is the root with exactly the stream properties of the schema's EntityTypes removed;
      no other element, attribute or text changes. A root without the schema's two levels
      raises the exception of `First()`. */
  method AdjustRoot(root: Element) returns (r: Attempt<Element>)
    ensures Schema(root).Threw? ==> r == Threw(NoElements)
    ensures Schema(root).Value? ==>
      r == Value(WithSchema(root, Schema(root).value.(children := Stripped(Schema(root).value.children))))
  {
    if root.children == [] || root.children[0].children == [] {
      return Threw(NoElements);
    }
    var schema := root.children[0].children[0];
    ghost var target := Stripped(schema.children);
    PassFacts(schema.children);
    schema := schema.(children := Pass(schema.children));
    while EntityStreams(schema.children) > 0
      invariant Stripped(schema.children) == target
      invariant schema.(children := target) == root.children[0].children[0].(children := target)
      decreases EntityStreams(schema.children)
    {
      PassFacts(schema.children);
      schema := schema.(children := Pass(schema.children));
    }
    NoStreamsIsStripped(schema.children);
    r := Value(WithSchema(root, schema));
  }

  /** `Adjust(xmlContent)`. `parse` is `XDocument.Parse`: the root of the document, none
      for a document without one, or the parser's exception; `render` is `ToString()`. */
  method Adjust(xmlContent: string, parse: string -> Attempt<Option<Element>>, render: Element -> string) returns (r: Attempt<string>)
    ensures parse(xmlContent).Threw? ==> r == Threw(parse(xmlContent).message)
    ensures parse(xmlContent) == Value(None) ==> r == Value(xmlContent)
    ensures parse(xmlContent).Value? && parse(xmlContent).value.Some? ==>
      var root := parse(xmlContent).value.value;
      && (Schema(root).Threw? ==> r == Threw(NoElements))
      && (Schema(root).Value? ==>
            r == Value(render(WithSchema(root, Schema(root).value.(children := Stripped(Schema(root).value.children))))))
  {
    var doc := parse(xmlContent);
    if doc.Threw? {
      return Threw(doc.message);
    }
    if doc.value.None? {
      return Value(xmlContent);
    }
    var adjusted := AdjustRoot(doc.value.value);
    if adjusted.Threw? {
      return Threw(adjusted.message);
    }
    r := Value(render(adjusted.value));
  }

  /** The adjusted root is what the test asks for: `Count` reads 0 on it. */
  lemma AdjustedCountIsZero(root: Element)
    requires Schema(root).Value?
    ensures var s := Schema(root).value;
      Count(WithSchema(root, s.(children := Stripped(s.children)))) == Value(0)
  {
    StrippedIsFinal(Schema(root).value.children);
  }

  /** Adjusting an adjusted root changes nothing. */
  lemma AdjustIdempotent(root: Element)
    requires Schema(root).Value?
    ensures var s := Schema(root).value;
      var once := WithSchema(root, s.(children := Stripped(s.children)));
      && Schema(once).Value?
      && WithSchema(once, Schema(once).value.(children := Stripped(Schema(once).value.children))) == once
  {
    var s := Schema(root).value;
    StrippedIsFinal(s.children);
    var once := WithSchema(root, s.(children := Stripped(s.children)));
    assert Schema(once).value == s.(children := Stripped(s.children));
    assert once.children[0].children[1..] == root.children[0].children[1..];
  }
}
