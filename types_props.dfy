/** What the types template promises about the Go source it emits, proved
    for every schema model and every choice of naming helpers.

    The reference definitions below say, member by member, what a struct
    body must declare at its own level (`ParticleMembers`, `AttributeMembers`,
    `BodyMembers`); the lemmas read the rendered lines back with
    `GoLines.Members` and show that they agree, that nested structs are
    closed, and that each documentation comment is followed by a
    declaration; `GoLines.Docs` ties each declaration to its own comment. */
module TypesTemplateProps {
  import opened Xsd
  import opened GoNames
  import opened GoLines
  import opened TypesTemplate

  // ------------------------------------------------- reference definitions

  /** The one member a particle declares in its enclosing struct. */
  function ParticleMember(h: Naming, e: Element): (r: Line) {
    if e.ref != "" then
      // A ref particle is named and tagged after the referenced element; its
      // own name and documentation play no part.
      Field(h.makePublic(h.replaceReservedWords(h.removeNS(e.ref))),
            (if e.maxOccurs == "unbounded" then "[]" else "") + h.toGoType(e.ref),
            "xml:\"" + h.removeNS(e.ref) + ",omitempty\"")
    else if e.typ == "" then
      // An untyped particle is an inline struct; its maxOccurs plays no part.
      InlineOpen(h.makePublic(h.replaceReservedWords(e.name)))
    else
      Field(h.makeFieldPublic(h.replaceReservedWords(e.name)),
            (if e.maxOccurs == "unbounded" then "[]" else "") + h.toGoType(e.typ),
            "xml:\"" + e.name + ",omitempty\"")
  }

  function ParticleMembers(h: Naming, els: seq<Element>): (r: seq<Line>)
    ensures |r| == |els|
  {
    seq(|els|, i requires 0 <= i < |els| => ParticleMember(h, els[i]))
  }

  /** The member an attribute declares: named by `makeFieldPublic` alone,
      typed by its inline simple type when it has no type reference, and
      always tagged as an attribute under its raw name. */
  function AttributeMember(h: Naming, a: Attribute): (r: Line) {
    Field(h.makeFieldPublic(a.name),
          if a.typ == "" then h.goSimpleType(a.simpleType) else h.toGoType(a.typ),
          "xml:\"" + a.name + ",attr,omitempty\"")
  }

  function AttributeMembers(h: Naming, attrs: seq<Attribute>): (r: seq<Line>)
    ensures |r| == |attrs|
  {
    seq(|attrs|, i requires 0 <= i < |attrs| => AttributeMember(h, attrs[i]))
  }

  /** Members of a complex-content extension: the embedded base when it
      resolves, the extension's sequence, its attributes; nothing else. */
  function ComplexContentMembers(h: Naming, cc: ComplexContent): (r: seq<Line>) {
    var baseType := h.toGoType(cc.extension.base);
    (if baseType != "" then [Embedded(baseType)] else [])
    + ParticleMembers(h, cc.extension.sequence)
    + AttributeMembers(h, cc.extension.attributes)
  }

  /** Members of a simple-content extension: `Value` of the base type, then
      the extension's attributes. */
  function SimpleContentMembers(h: Naming, sc: SimpleContent): (r: seq<Line>) {
    [Field("Value", h.toGoType(sc.extension.base), "")]
    + AttributeMembers(h, sc.extension.attributes)
  }

  /** Members of a struct body, by the precedence complex content, simple
      content, then the four particle groups and the attributes in order. */
  function BodyMembers(h: Naming, ct: ComplexType): (r: seq<Line>) {
    if ct.complexContent.extension.base != "" then
      ComplexContentMembers(h, ct.complexContent)
    else if ct.simpleContent.extension.base != "" then
      SimpleContentMembers(h, ct.simpleContent)
    else
      ParticleMembers(h, ct.sequence)
      + ParticleMembers(h, ct.choice)
      + ParticleMembers(h, ct.sequenceChoice)
      + ParticleMembers(h, ct.all)
      + AttributeMembers(h, ct.attributes)
  }

  /** The enumeration entries of a simple type (none without a restriction). */
  function Entries(st: SimpleType): (r: seq<Enumeration>) {
    match st.restriction
    case None => []
    case Some(restriction) => restriction.enumeration
  }

  /** The constants an enumeration must yield under the type name `t`: one
      per entry, in order, named `t` followed by the exported entry value,
      typed `t`, valued by the quoted, escaped entry value. */
  function EnumerationConsts(h: Naming, t: string, es: seq<Enumeration>): (r: seq<Line>)
    ensures |r| == |es|
  {
    seq(|es|, i requires 0 <= i < |es| =>
      Const(t + h.makePublic(h.replaceReservedWords(es[i].value)), t, "\"" + h.goString(es[i].value) + "\""))
  }

  /** The documentation each of a run of declarations must carry, given
      their documentation strings in order: a comment line rendering the
      string, or nothing when it is empty. */
  function DocsOf(h: Naming, docs: seq<string>): (r: seq<seq<Line>>)
    ensures |r| == |docs|
  {
    seq(|docs|, i requires 0 <= i < |docs| => if docs[i] == "" then [] else [Comment(h.comment(docs[i]))])
  }

  /** The type names a schema declares, in the order the driver emits them. */
  function SchemaTypeNames(h: Naming, s: Schema): seq<string> {
    SimpleTypeNames(h, s.simpleTypes)
    + AnonymousElementNames(h, s.elements)
    + ComplexTypeNames(h, s.complexTypes)
  }

  function SimpleTypeNames(h: Naming, sts: seq<SimpleType>): (r: seq<string>)
    ensures |r| == |sts|
  {
    seq(|sts|, i requires 0 <= i < |sts| => PublicName(h, sts[i].name))
  }

  function ComplexTypeNames(h: Naming, cts: seq<ComplexType>): (r: seq<string>)
    ensures |r| == |cts|
  {
    seq(|cts|, i requires 0 <= i < |cts| => PublicName(h, cts[i].name))
  }

  /** The type names of all schemas, schema after schema. */
  function SchemasTypeNames(h: Naming, schemas: seq<Schema>): seq<string>
    decreases |schemas|
  {
    if schemas == [] then [] else SchemaTypeNames(h, schemas[0]) + SchemasTypeNames(h, schemas[1..])
  }

  /** The constants the simple-type loop must yield: each simple type's
      enumeration constants, type after type. */
  function SimpleTypesConsts(h: Naming, sts: seq<SimpleType>): (r: seq<Line>)
    decreases |sts|
  {
    if sts == [] then []
    else EnumerationConsts(h, PublicName(h, sts[0].name), Entries(sts[0])) + SimpleTypesConsts(h, sts[1..])
  }

  /** The constants of all schemas, schema after schema. */
  function SchemasConsts(h: Naming, schemas: seq<Schema>): (r: seq<Line>)
    decreases |schemas|
  {
    if schemas == [] then [] else SimpleTypesConsts(h, schemas[0].simpleTypes) + SchemasConsts(h, schemas[1..])
  }

  /** The struct a top-level element or complex type called `name` must
      declare: its public name, and the `XMLName` member tagged with the
      target namespace and the raw name ahead of the body's members. */
  function StructOf(h: Naming, targetNamespace: string, name: string, ct: ComplexType): (r: StructDecl) {
    StructDecl(PublicName(h, name), [Field("XMLName", "xml.Name", XmlNameTag(targetNamespace, name))] + BodyMembers(h, ct))
  }

  /** The structs the top-level elements must declare: one for each untyped
      element that carries a complex type, in order. */
  function AnonymousElementStructs(h: Naming, targetNamespace: string, els: seq<Element>): (r: seq<StructDecl>)
    decreases |els|
  {
    if els == [] then []
    else
      (if els[0].typ == "" && els[0].complexType.Some?
       then [StructOf(h, targetNamespace, els[0].name, els[0].complexType.value)] else [])
      + AnonymousElementStructs(h, targetNamespace, els[1..])
  }

  /** The structs the named complex types must declare, one each, in order. */
  function ComplexTypeStructs(h: Naming, targetNamespace: string, cts: seq<ComplexType>): (r: seq<StructDecl>)
    ensures |r| == |cts|
    decreases |cts|
  {
    if cts == [] then []
    else [StructOf(h, targetNamespace, cts[0].name, cts[0])] + ComplexTypeStructs(h, targetNamespace, cts[1..])
  }

  /** The structs of one schema: its anonymous elements', then its complex types'. */
  function SchemaStructs(h: Naming, s: Schema): (r: seq<StructDecl>) {
    AnonymousElementStructs(h, s.targetNamespace, s.elements)
    + ComplexTypeStructs(h, s.targetNamespace, s.complexTypes)
  }

  /** The structs of all schemas, schema after schema. */
  function SchemasStructs(h: Naming, schemas: seq<Schema>): (r: seq<StructDecl>)
    decreases |schemas|
  {
    if schemas == [] then [] else SchemaStructs(h, schemas[0]) + SchemasStructs(h, schemas[1..])
  }

  /** Names of the top-level elements that carry an anonymous complex type
      and no type reference; the other top-level elements declare nothing. */
  function AnonymousElementNames(h: Naming, els: seq<Element>): seq<string>
    decreases |els|
  {
    if els == [] then []
    else
      (if els[0].typ == "" && els[0].complexType.Some? then [PublicName(h, els[0].name)] else [])
      + AnonymousElementNames(h, els[1..])
  }

  // ------------------------------------------------- reference outlines

  /** A declaration that carries no comment and opens nothing. */
  function Bare(l: Line): (r: Decl) {
    Decl([], l, [], [])
  }

  /** A field or constant under the comment its documentation renders to
      (none when the documentation is empty). */
  function Documented(h: Naming, doc: string, l: Line): (r: Decl) {
    Decl(if doc == "" then [] else [Comment(h.comment(doc))], l, [], [])
  }

  /** What one particle must read back as in its enclosing struct: a ref
      particle its bare member, an untyped one its inline struct, a typed
      one its member under its own documentation. */
  function ParticleOutline(h: Naming, e: Element): (r: Decl)
    decreases e, 1
  {
    if e.ref != "" then Bare(ParticleMember(h, e))
    else if e.typ == "" then InlineOutline(h, e)
    else Documented(h, e.doc, ParticleMember(h, e))
  }

  /** What an inline struct must read back as: opened on the particle's
      public name, holding the outline of the particle's own complex type
      (nothing when it has none), closed by the particle's element tag. */
  function InlineOutline(h: Naming, e: Element): (r: Decl)
    decreases e, 0
  {
    Decl([], InlineOpen(h.makePublic(h.replaceReservedWords(e.name))),
         match e.complexType case None => [] case Some(ct) => BodyOutline(h, ct),
         [InlineClose("xml:\"" + e.name + ",omitempty\"")])
  }

  function ParticlesOutline(h: Naming, els: seq<Element>): (r: seq<Decl>)
    ensures |r| == |els|
    decreases els
  {
    if els == [] then [] else [ParticleOutline(h, els[0])] + ParticlesOutline(h, els[1..])
  }

  /** Each attribute's member under its own documentation, in order. */
  function AttributesOutline(h: Naming, attrs: seq<Attribute>): (r: seq<Decl>)
    ensures |r| == |attrs|
    decreases |attrs|
  {
    if attrs == [] then []
    else [Documented(h, attrs[0].doc, AttributeMember(h, attrs[0]))] + AttributesOutline(h, attrs[1..])
  }

  function ComplexContentOutline(h: Naming, cc: ComplexContent): (r: seq<Decl>)
    decreases cc
  {
    var baseType := h.toGoType(cc.extension.base);
    (if baseType != "" then [Bare(Embedded(baseType))] else [])
    + ParticlesOutline(h, cc.extension.sequence)
    + AttributesOutline(h, cc.extension.attributes)
  }

  function SimpleContentOutline(h: Naming, sc: SimpleContent): (r: seq<Decl>) {
    [Bare(Field("Value", h.toGoType(sc.extension.base), ""))]
    + AttributesOutline(h, sc.extension.attributes)
  }

  /** What a struct body must read back as, by the same precedence as
      `BodyMembers`, with every comment and every nested body in place. */
  function BodyOutline(h: Naming, ct: ComplexType): (r: seq<Decl>)
    decreases ct
  {
    if ct.complexContent.extension.base != "" then
      ComplexContentOutline(h, ct.complexContent)
    else if ct.simpleContent.extension.base != "" then
      SimpleContentOutline(h, ct.simpleContent)
    else
      ParticlesOutline(h, ct.sequence)
      + ParticlesOutline(h, ct.choice)
      + ParticlesOutline(h, ct.sequenceChoice)
      + ParticlesOutline(h, ct.all)
      + AttributesOutline(h, ct.attributes)
  }

  /** Each enumeration entry's constant under its own documentation. */
  function EntriesOutline(h: Naming, t: string, es: seq<Enumeration>): (r: seq<Decl>)
    ensures |r| == |es|
    decreases |es|
  {
    if es == [] then []
    else
      [Documented(h, es[0].doc, Const(t + PublicName(h, es[0].value), t, "\"" + h.goString(es[0].value) + "\""))]
      + EntriesOutline(h, t, es[1..])
  }

  /** What a simple type must read back as: `type T goSimpleType(st)`, one
      const block, and inside it its entries, each under its comment. */
  function SimpleTypeOutline(h: Naming, st: SimpleType): (r: seq<Decl>) {
    var t := PublicName(h, st.name);
    [Bare(TypeDecl(t, h.goSimpleType(Some(st)))), Bare(ConstOpen)]
    + EntriesOutline(h, t, Entries(st))
    + [Bare(ConstClose)]
  }

  function SimpleTypesOutline(h: Naming, sts: seq<SimpleType>): (r: seq<Decl>)
    decreases |sts|
  {
    if sts == [] then [] else SimpleTypeOutline(h, sts[0]) + SimpleTypesOutline(h, sts[1..])
  }

  /** What a top-level struct called `name` must read back as: opened on its
      public name, holding the `XMLName` member and the outline of its body,
      then closed. */
  function StructOutline(h: Naming, targetNamespace: string, name: string, ct: ComplexType): (r: Decl) {
    Decl([], StructOpen(PublicName(h, name)),
         [Bare(Field("XMLName", "xml.Name", XmlNameTag(targetNamespace, name)))] + BodyOutline(h, ct),
         [StructClose])
  }

  function TopElementsOutline(h: Naming, targetNamespace: string, els: seq<Element>): (r: seq<Decl>)
    decreases |els|
  {
    if els == [] then []
    else
      (if els[0].typ == "" && els[0].complexType.Some?
       then [StructOutline(h, targetNamespace, els[0].name, els[0].complexType.value)] else [])
      + TopElementsOutline(h, targetNamespace, els[1..])
  }

  function ComplexTypesOutline(h: Naming, targetNamespace: string, cts: seq<ComplexType>): (r: seq<Decl>)
    ensures |r| == |cts|
    decreases |cts|
  {
    if cts == [] then []
    else [StructOutline(h, targetNamespace, cts[0].name, cts[0])] + ComplexTypesOutline(h, targetNamespace, cts[1..])
  }

  /** One schema: its simple types, its anonymous top-level elements, its
      complex types. */
  function SchemaOutline(h: Naming, s: Schema): (r: seq<Decl>) {
    SimpleTypesOutline(h, s.simpleTypes)
    + TopElementsOutline(h, s.targetNamespace, s.elements)
    + ComplexTypesOutline(h, s.targetNamespace, s.complexTypes)
  }

  function SchemasOutline(h: Naming, schemas: seq<Schema>): (r: seq<Decl>)
    decreases |schemas|
  {
    if schemas == [] then [] else SchemaOutline(h, schemas[0]) + SchemasOutline(h, schemas[1..])
  }

  // ------------------------------------------------------ structural helpers

  lemma SimpleTypeNamesCons(h: Naming, sts: seq<SimpleType>)
    requires sts != []
    ensures SimpleTypeNames(h, sts) == [PublicName(h, sts[0].name)] + SimpleTypeNames(h, sts[1..])
  {
  }

  lemma ComplexTypeNamesCons(h: Naming, cts: seq<ComplexType>)
    requires cts != []
    ensures ComplexTypeNames(h, cts) == [PublicName(h, cts[0].name)] + ComplexTypeNames(h, cts[1..])
  {
  }

  lemma ParticleMembersCons(h: Naming, els: seq<Element>)
    requires els != []
    ensures ParticleMembers(h, els) == [ParticleMember(h, els[0])] + ParticleMembers(h, els[1..])
  {
  }

  lemma EnumerationConstsCons(h: Naming, t: string, es: seq<Enumeration>)
    requires es != []
    ensures EnumerationConsts(h, t, es)
         == [Const(t + PublicName(h, es[0].value), t, "\"" + h.goString(es[0].value) + "\"")] + EnumerationConsts(h, t, es[1..])
  {
  }

  lemma AttributeMembersCons(h: Naming, attrs: seq<Attribute>)
    requires attrs != []
    ensures AttributeMembers(h, attrs) == [AttributeMember(h, attrs[0])] + AttributeMembers(h, attrs[1..])
  {
  }

  lemma DocsOfCons(h: Naming, docs: seq<string>)
    requires docs != []
    ensures DocsOf(h, docs) == [DocLines(h, docs[0])] + DocsOf(h, docs[1..])
  {
  }

  /** A declaration after its optional comment reads back as that one
      declaration, carrying exactly that comment. */
  lemma DocumentedDocs(h: Naming, doc: string, m: Line, rest: seq<Line>)
    requires IsDocumentable(m)
    ensures Docs(DocLines(h, doc) + [m] + rest) == [DocLines(h, doc)] + Docs(rest)
  {
    if doc == "" {
      assert DocLines(h, doc) + [m] + rest == [m] + rest;
      assert ([m] + rest)[1..] == rest;
    } else {
      var lines := [Comment(h.comment(doc)), m] + rest;
      assert DocLines(h, doc) + [m] + rest == lines;
      assert lines[2..] == rest;
    }
  }

  /** A member line preceded by its optional documentation comment. */
  lemma DocumentedMember(h: Naming, doc: string, m: Line)
    requires m.Field? || m.Const?
    ensures var r := DocLines(h, doc) + [m];
      Balanced(r) && CommentsAttached(r) && Members(r) == (if IsMember(m) then [m] else [])
  {
    FlatLine(m);
    if doc != "" {
      var c := Comment(h.comment(doc));
      FlatLine(c);
      BalancedAppend([c], [m]);
      assert DocLines(h, doc) + [m] == [c, m];
    } else {
      assert DocLines(h, doc) + [m] == [m];
    }
  }

  // ------------------------------------------------------------- attributes

  /** Template `Attributes` declares exactly one member per attribute, in
      order, each after its documentation comment. */
  lemma {:induction false} AttributesRender(h: Naming, attrs: seq<Attribute>)
    ensures var r := RenderAttributes(h, attrs);
      Balanced(r) && CommentsAttached(r) && Members(r) == AttributeMembers(h, attrs)
    decreases |attrs|
  {
    if attrs == [] {
      assert RenderAttributes(h, attrs) == [];
    } else {
      var a := attrs[0];
      var head := DocLines(h, a.doc) + [AttributeMember(h, a)];
      DocumentedMember(h, a.doc, AttributeMember(h, a));
      AttributesRender(h, attrs[1..]);
      assert RenderAttributes(h, attrs) == head + RenderAttributes(h, attrs[1..]);
      BalancedAppend(head, RenderAttributes(h, attrs[1..]));
      CommentsAttachedAppend(head, RenderAttributes(h, attrs[1..]));
      AttributeMembersCons(h, attrs);
    }
  }

  /** Every attribute's documentation is emitted as a comment line right
      above that attribute's own member; undocumented members carry none. */
  lemma {:induction false} AttributesDocumented(h: Naming, attrs: seq<Attribute>)
    ensures Docs(RenderAttributes(h, attrs)) == DocsOf(h, seq(|attrs|, i requires 0 <= i < |attrs| => attrs[i].doc))
    decreases |attrs|
  {
    if attrs == [] {
      assert RenderAttributes(h, attrs) == [];
    } else {
      var a := attrs[0];
      var rest := RenderAttributes(h, attrs[1..]);
      assert RenderAttributes(h, attrs) == DocLines(h, a.doc) + [AttributeMember(h, a)] + rest;
      DocumentedDocs(h, a.doc, AttributeMember(h, a), rest);
      AttributesDocumented(h, attrs[1..]);
      var docs := seq(|attrs|, i requires 0 <= i < |attrs| => attrs[i].doc);
      var restDocs := seq(|attrs[1..]|, i requires 0 <= i < |attrs[1..]| => attrs[1..][i].doc);
      assert restDocs == docs[1..];
      DocsOfCons(h, docs);
    }
  }

  // ------------------------------------------- particles and struct bodies

  /** Template `Elements` declares exactly one member per particle, in order;
      the members of inline structs stay nested inside them. */
  lemma {:induction false} ElementsRender(h: Naming, els: seq<Element>)
    ensures var r := RenderElements(h, els);
      Balanced(r) && CommentsAttached(r) && Members(r) == ParticleMembers(h, els)
    decreases els
  {
    if els == [] {
      assert RenderElements(h, els) == [];
    } else {
      ElementRender(h, els[0]);
      ElementsRender(h, els[1..]);
      BalancedAppend(RenderElement(h, els[0]), RenderElements(h, els[1..]));
      CommentsAttachedAppend(RenderElement(h, els[0]), RenderElements(h, els[1..]));
      ParticleMembersCons(h, els);
    }
  }

  /** One particle: a ref particle is exactly its member line (its
      documentation is never emitted); a typed particle is its member line
      after its documentation comment; an untyped one is an inline struct. */
  lemma {:induction false} ElementRender(h: Naming, e: Element)
    ensures var r := RenderElement(h, e);
      Balanced(r) && CommentsAttached(r) && Members(r) == [ParticleMember(h, e)]
    ensures e.ref != "" ==> RenderElement(h, e) == [ParticleMember(h, e)]
    ensures e.ref == "" && e.typ != "" ==> RenderElement(h, e) == DocLines(h, e.doc) + [ParticleMember(h, e)]
    ensures e.ref == "" && e.typ == "" ==> RenderElement(h, e) == RenderComplexTypeInline(h, e)
    decreases e, 1
  {
    if e.ref != "" {
      FlatLine(ParticleMember(h, e));
    } else if e.typ == "" {
      InlineRender(h, e);
    } else {
      DocumentedMember(h, e.doc, ParticleMember(h, e));
    }
  }

  /** Template `ComplexTypeInline`: a nested struct that opens with the
      particle's member line, closes with its tag, and holds exactly the
      members of the particle's own complex type (none when it has none). */
  lemma {:induction false} InlineRender(h: Naming, e: Element)
    ensures var r := RenderComplexTypeInline(h, e);
      && Balanced(r) && CommentsAttached(r)
      && Members(r) == [InlineOpen(PublicName(h, e.name))]
      && |r| >= 2
      && r[0] == InlineOpen(PublicName(h, e.name))
      && r[|r| - 1] == InlineClose(ElementTag(e.name))
      && Members(r[1..|r| - 1]) == (match e.complexType case None => [] case Some(ct) => BodyMembers(h, ct))
      && (e.complexType.None? ==> |r| == 2)
    decreases e, 0
  {
    var open, close := InlineOpen(PublicName(h, e.name)), InlineClose(ElementTag(e.name));
    var body: seq<Line> := match e.complexType case None => [] case Some(ct) => RenderBody(h, ct);
    match e.complexType {
      case None =>
      case Some(ct) => BodyRender(h, ct);
    }
    var r := RenderComplexTypeInline(h, e);
    assert r == [open] + body + [close];
    assert r[1..|r| - 1] == body;
    Block(open, body, close);
    CommentsAttachedAppend([open], body);
    CommentsAttachedAppend([open] + body, [close]);
  }

  /** The content dispatch: the members of a struct body are exactly those
      `BodyMembers` lists, in that order. */
  lemma {:induction false} BodyRender(h: Naming, ct: ComplexType)
    ensures var r := RenderBody(h, ct);
      Balanced(r) && CommentsAttached(r) && Members(r) == BodyMembers(h, ct)
    decreases ct
  {
    if ct.complexContent.extension.base != "" {
      ComplexContentRender(h, ct.complexContent);
    } else if ct.simpleContent.extension.base != "" {
      SimpleContentRender(h, ct.simpleContent);
    } else {
      var a, b, c, d := RenderElements(h, ct.sequence), RenderElements(h, ct.choice),
        RenderElements(h, ct.sequenceChoice), RenderElements(h, ct.all);
      var e := RenderAttributes(h, ct.attributes);
      ElementsRender(h, ct.sequence);
      ElementsRender(h, ct.choice);
      ElementsRender(h, ct.sequenceChoice);
      ElementsRender(h, ct.all);
      AttributesRender(h, ct.attributes);
      BalancedAppend(a, b);
      BalancedAppend(a + b, c);
      BalancedAppend(a + b + c, d);
      BalancedAppend(a + b + c + d, e);
      CommentsAttachedAppend(a, b);
      CommentsAttachedAppend(a + b, c);
      CommentsAttachedAppend(a + b + c, d);
      CommentsAttachedAppend(a + b + c + d, e);
    }
  }

  /** Template `ComplexContent`. */
  lemma {:induction false} ComplexContentRender(h: Naming, cc: ComplexContent)
    ensures var r := RenderComplexContent(h, cc);
      Balanced(r) && CommentsAttached(r) && Members(r) == ComplexContentMembers(h, cc)
    decreases cc
  {
    var baseType := h.toGoType(cc.extension.base);
    var a: seq<Line> := if baseType != "" then [Embedded(baseType)] else [];
    var b, c := RenderElements(h, cc.extension.sequence), RenderAttributes(h, cc.extension.attributes);
    if baseType != "" {
      FlatLine(Embedded(baseType));
    }
    ElementsRender(h, cc.extension.sequence);
    AttributesRender(h, cc.extension.attributes);
    BalancedAppend(a, b);
    BalancedAppend(a + b, c);
    CommentsAttachedAppend(a, b);
    CommentsAttachedAppend(a + b, c);
  }

  /** Template `SimpleContent`. */
  lemma SimpleContentRender(h: Naming, sc: SimpleContent)
    ensures var r := RenderSimpleContent(h, sc);
      Balanced(r) && CommentsAttached(r) && Members(r) == SimpleContentMembers(h, sc)
  {
    var value := Field("Value", h.toGoType(sc.extension.base), "");
    FlatLine(value);
    AttributesRender(h, sc.extension.attributes);
    BalancedAppend([value], RenderAttributes(h, sc.extension.attributes));
    CommentsAttachedAppend([value], RenderAttributes(h, sc.extension.attributes));
  }

  // ------------------------------------------------------------ particle cases

  /** A ref particle is rendered from its `ref` and `maxOccurs` alone: its
      name, type, documentation and inline type never reach the output. */
  lemma RefParticleIgnoresOwnFields(h: Naming, e: Element, name: string, typ: string, doc: string, ct: Option<ComplexType>)
    requires e.ref != ""
    ensures RenderElement(h, e.(name := name, typ := typ, doc := doc, complexType := ct)) == RenderElement(h, e)
  {
  }

  /** An inline particle never becomes a slice, whatever its `maxOccurs`,
      and its own documentation is not emitted. */
  lemma InlineParticleIgnoresMaxOccurs(h: Naming, e: Element, maxOccurs: string, doc: string)
    requires e.ref == "" && e.typ == ""
    ensures RenderElement(h, e.(maxOccurs := maxOccurs, doc := doc)) == RenderElement(h, e)
  {
  }

  // --------------------------------------------------------- body dispatch

  /** A non-empty complex-content base decides the body alone: the simple
      content, the particle groups and the attributes are not rendered. */
  lemma ComplexContentTakesPrecedence(h: Naming, ct: ComplexType, other: ComplexType)
    requires ct.complexContent.extension.base != ""
    requires other.complexContent == ct.complexContent
    ensures RenderBody(h, other) == RenderBody(h, ct)
  {
  }

  /** Without complex content, a non-empty simple-content base decides the
      body alone: the particle groups and attributes are not rendered. */
  lemma SimpleContentTakesPrecedence(h: Naming, ct: ComplexType, other: ComplexType)
    requires ct.complexContent.extension.base == "" && other.complexContent.extension.base == ""
    requires ct.simpleContent.extension.base != ""
    requires other.simpleContent == ct.simpleContent
    ensures RenderBody(h, other) == RenderBody(h, ct)
  {
  }

  // ------------------------------------------------------------ simple types

  lemma DocLinesDeclareNothing(h: Naming, doc: string)
    ensures Decls(DocLines(h, doc)) == [] && Consts(DocLines(h, doc)) == []
  {
  }

  /** One enumeration entry: its comment, if any, then its constant. */
  lemma EntryRender(h: Naming, doc: string, c: Line)
    requires c.Const?
    ensures var r := DocLines(h, doc) + [c];
      Balanced(r) && CommentsAttached(r) && Decls(r) == [] && Consts(r) == [c]
  {
    DocumentedMember(h, doc, c);
    DocLinesDeclareNothing(h, doc);
    assert [c][1..] == [];
    assert Consts([c]) == [c] + Consts([c][1..]);
    assert Decls([c]) == [] + Decls([c][1..]);
    ConstsAppend(DocLines(h, doc), [c]);
    DeclsAppend(DocLines(h, doc), [c]);
  }

  /** The entries of one const block hold no type declaration, and each
      comment is followed by a constant. */
  lemma {:induction false} EnumerationLayout(h: Naming, t: string, es: seq<Enumeration>)
    ensures var r := RenderEnumeration(h, t, es);
      Balanced(r) && CommentsAttached(r) && Decls(r) == []
    decreases |es|
  {
    if es == [] {
      assert RenderEnumeration(h, t, es) == [];
    } else {
      var e := es[0];
      var c := Const(t + PublicName(h, e.value), t, "\"" + h.goString(e.value) + "\"");
      var head, rest := DocLines(h, e.doc) + [c], RenderEnumeration(h, t, es[1..]);
      assert RenderEnumeration(h, t, es) == head + rest;
      EntryRender(h, e.doc, c);
      EnumerationLayout(h, t, es[1..]);
      BalancedAppend(head, rest);
      CommentsAttachedAppend(head, rest);
      DeclsAppend(head, rest);
    }
  }

  /** The constants of one const block: exactly one per entry, in order, each
      named by the type name followed by the entry's value. */
  lemma {:induction false} EnumerationConstants(h: Naming, t: string, es: seq<Enumeration>)
    ensures Consts(RenderEnumeration(h, t, es)) == EnumerationConsts(h, t, es)
    decreases |es|
  {
    if es == [] {
      assert RenderEnumeration(h, t, es) == [];
    } else {
      var e := es[0];
      var c := Const(t + PublicName(h, e.value), t, "\"" + h.goString(e.value) + "\"");
      var head, rest := DocLines(h, e.doc) + [c], RenderEnumeration(h, t, es[1..]);
      assert RenderEnumeration(h, t, es) == head + rest;
      EntryRender(h, e.doc, c);
      EnumerationConstants(h, t, es[1..]);
      ConstsAppend(head, rest);
      EnumerationConstsCons(h, t, es);
    }
  }

  /** Every entry's documentation is emitted as a comment line right above
      that entry's own constant; undocumented constants carry none. */
  lemma {:induction false} EnumerationDocumented(h: Naming, t: string, es: seq<Enumeration>)
    ensures Docs(RenderEnumeration(h, t, es)) == DocsOf(h, seq(|es|, i requires 0 <= i < |es| => es[i].doc))
    decreases |es|
  {
    if es == [] {
      assert RenderEnumeration(h, t, es) == [];
    } else {
      var e := es[0];
      var c := Const(t + PublicName(h, e.value), t, "\"" + h.goString(e.value) + "\"");
      var rest := RenderEnumeration(h, t, es[1..]);
      assert RenderEnumeration(h, t, es) == DocLines(h, e.doc) + [c] + rest;
      DocumentedDocs(h, e.doc, c, rest);
      EnumerationDocumented(h, t, es[1..]);
      var docs := seq(|es|, i requires 0 <= i < |es| => es[i].doc);
      var restDocs := seq(|es[1..]|, i requires 0 <= i < |es[1..]| => es[1..][i].doc);
      assert restDocs == docs[1..];
      DocsOfCons(h, docs);
    }
  }

  /** Template `SimpleType`: balanced, every comment above a constant, and
      with no restriction only its three fixed lines. */
  lemma SimpleTypeLayout(h: Naming, st: SimpleType)
    ensures var r := RenderSimpleType(h, st);
      && Balanced(r) && CommentsAttached(r)
      && (st.restriction.None? ==> r == [TypeDecl(PublicName(h, st.name), h.goSimpleType(Some(st))), ConstOpen, ConstClose])
  {
    var t := PublicName(h, st.name);
    var open := [TypeDecl(t, h.goSimpleType(Some(st))), ConstOpen];
    var entries := RenderEnumeration(h, t, Entries(st));
    assert RenderSimpleType(h, st) == open + entries + [ConstClose];
    assert Balanced(entries) && CommentsAttached(entries) by {
      EnumerationLayout(h, t, Entries(st));
    }
    assert Balanced(open) && CommentsAttached(open) && Balanced([ConstClose]) && CommentsAttached([ConstClose]) by {
      FlatLines(open);
      FlatLines([ConstClose]);
    }
    assert Balanced(open + entries) && CommentsAttached(open + entries) by {
      BalancedAppend(open, entries);
      CommentsAttachedAppend(open, entries);
    }
    BalancedAppend(open + entries, [ConstClose]);
    CommentsAttachedAppend(open + entries, [ConstClose]);
  }

  /** Template `SimpleType` declares exactly one type, `T`. */
  lemma SimpleTypeDecls(h: Naming, st: SimpleType)
    ensures Decls(RenderSimpleType(h, st)) == [PublicName(h, st.name)]
  {
    var t := PublicName(h, st.name);
    var open := [TypeDecl(t, h.goSimpleType(Some(st))), ConstOpen];
    var entries := RenderEnumeration(h, t, Entries(st));
    assert RenderSimpleType(h, st) == open + entries + [ConstClose];
    EnumerationLayout(h, t, Entries(st));
    assert open[1..] == [ConstOpen] && [ConstOpen][1..] == [] && [ConstClose][1..] == [];
    assert Decls(open[1..]) == [] + Decls([]);
    assert Decls(open) == [t] + Decls(open[1..]);
    assert Decls([ConstClose]) == [];
    DeclsAppend(open, entries);
    DeclsAppend(open + entries, [ConstClose]);
  }

  /** Template `SimpleType`: its constants are exactly one per enumeration
      entry, in order, typed by the type and valued by the escaped entry
      value; none without a restriction. */
  lemma SimpleTypeConstants(h: Naming, st: SimpleType)
    ensures Consts(RenderSimpleType(h, st)) == EnumerationConsts(h, PublicName(h, st.name), Entries(st))
  {
    var t := PublicName(h, st.name);
    var open := [TypeDecl(t, h.goSimpleType(Some(st))), ConstOpen];
    var entries := RenderEnumeration(h, t, Entries(st));
    assert RenderSimpleType(h, st) == open + entries + [ConstClose];
    EnumerationConstants(h, t, Entries(st));
    assert open[1..] == [ConstOpen] && [ConstOpen][1..] == [] && [ConstClose][1..] == [];
    assert Consts(open[1..]) == [] + Consts([]);
    assert Consts(open) == [] + Consts(open[1..]);
    assert Consts([ConstClose]) == [];
    ConstsAppend(open, entries);
    ConstsAppend(open + entries, [ConstClose]);
  }

  /** Template `SimpleType`: each enumeration entry's documentation sits
      right above that entry's constant. */
  lemma SimpleTypeDocumented(h: Naming, st: SimpleType)
    ensures Docs(RenderSimpleType(h, st)) == DocsOf(h, seq(|Entries(st)|, i requires 0 <= i < |Entries(st)| => Entries(st)[i].doc))
  {
    var t := PublicName(h, st.name);
    var decl := TypeDecl(t, h.goSimpleType(Some(st)));
    var entries := RenderEnumeration(h, t, Entries(st));
    var tail := entries + [ConstClose];
    calc {
      Docs(RenderSimpleType(h, st));
    == { assert RenderSimpleType(h, st) == [decl] + ([ConstOpen] + tail); }
      Docs([decl] + ([ConstOpen] + tail));
    == { UndocumentableSkipped(decl, [ConstOpen] + tail); }
      Docs([ConstOpen] + tail);
    == { UndocumentableSkipped(ConstOpen, tail); }
      Docs(tail);
    == { EnumerationLayout(h, t, Entries(st)); DocsAppend(entries, [ConstClose]); }
      Docs(entries) + Docs([ConstClose]);
    == { UndocumentableSkipped(ConstClose, []); assert [ConstClose] + [] == [ConstClose]; }
      Docs(entries);
    == { EnumerationDocumented(h, t, Entries(st)); }
      DocsOf(h, seq(|Entries(st)|, i requires 0 <= i < |Entries(st)| => Entries(st)[i].doc));
    }
  }

  /** Distinct entry values give distinct constant names whenever the naming
      helpers keep distinct values apart. */
  lemma ConstantNamesDistinct(h: Naming, st: SimpleType)
    requires forall x, y :: PublicName(h, x) == PublicName(h, y) ==> x == y
    requires forall i, j :: 0 <= i < j < |Entries(st)| ==> Entries(st)[i].value != Entries(st)[j].value
    ensures var cs := Consts(RenderSimpleType(h, st));
      forall i :: 0 <= i < |cs| ==> cs[i].Const?
    ensures var cs := Consts(RenderSimpleType(h, st));
      forall i, j :: 0 <= i < j < |cs| ==> cs[i].name != cs[j].name
  {
    var t := PublicName(h, st.name);
    var es := Entries(st);
    var cs := Consts(RenderSimpleType(h, st));
    SimpleTypeConstants(h, st);
    forall i, j | 0 <= i < j < |cs| ensures cs[i].name != cs[j].name {
      var a, b := PublicName(h, es[i].value), PublicName(h, es[j].value);
      assert cs[i].name == t + a && cs[j].name == t + b;
      assert a != b;
      assert (t + a)[|t|..] == a && (t + b)[|t|..] == b;
    }
  }

  // -------------------------------------------------------------- top level

  /** A top-level struct: between its opening and closing lines it declares
      the `XMLName` member, tagged with the target namespace and the raw
      name, then exactly the members of the body. */
  lemma StructMembers(h: Naming, targetNamespace: string, name: string, ct: ComplexType)
    ensures var r := RenderStruct(h, targetNamespace, name, ct);
      Members(r[1..|r| - 1]) == [Field("XMLName", "xml.Name", XmlNameTag(targetNamespace, name))] + BodyMembers(h, ct)
  {
    var xmlName := Field("XMLName", "xml.Name", XmlNameTag(targetNamespace, name));
    var body := RenderBody(h, ct);
    var r := RenderStruct(h, targetNamespace, name, ct);
    assert r[1..|r| - 1] == [xmlName] + body;
    FlatLine(xmlName);
    BodyRender(h, ct);
    BalancedAppend([xmlName], body);
  }

  /** A top-level struct is balanced, and every comment in it is followed by
      a field. */
  lemma StructLayout(h: Naming, targetNamespace: string, name: string, ct: ComplexType)
    ensures var r := RenderStruct(h, targetNamespace, name, ct);
      Balanced(r) && CommentsAttached(r)
  {
    var open, close := StructOpen(PublicName(h, name)), StructClose;
    var xmlName := Field("XMLName", "xml.Name", XmlNameTag(targetNamespace, name));
    var body := RenderBody(h, ct);
    var inner := [xmlName] + body;
    assert RenderStruct(h, targetNamespace, name, ct) == [open] + inner + [close];
    FlatLine(xmlName);
    BodyRender(h, ct);
    BalancedAppend([xmlName], body);
    Block(open, inner, close);
    CommentsAttachedAppend([xmlName], body);
    CommentsAttachedAppend([open], inner);
    CommentsAttachedAppend([open] + inner, [close]);
  }

  /** Read back, a top-level struct is one struct: its public name, and the
      `XMLName` member ahead of the body's members. */
  lemma StructContents(h: Naming, targetNamespace: string, name: string, ct: ComplexType)
    ensures Structs(RenderStruct(h, targetNamespace, name, ct)) == [StructOf(h, targetNamespace, name, ct)]
  {
    var xmlName := Field("XMLName", "xml.Name", XmlNameTag(targetNamespace, name));
    var body := RenderBody(h, ct);
    var inner := [xmlName] + body;
    var r := RenderStruct(h, targetNamespace, name, ct);
    assert r == [StructOpen(PublicName(h, name))] + inner + [StructClose];
    assert r[1..|r| - 1] == inner;
    FlatLine(xmlName);
    BodyRender(h, ct);
    BalancedAppend([xmlName], body);
    StructBlock(PublicName(h, name), inner);
  }

  /** A top-level struct declares exactly one type, its own, and no constant. */
  lemma StructDecls(h: Naming, targetNamespace: string, name: string, ct: ComplexType)
    ensures var r := RenderStruct(h, targetNamespace, name, ct);
      Decls(r) == [PublicName(h, name)] && Consts(r) == []
  {
    var open, close := StructOpen(PublicName(h, name)), StructClose;
    var inner := [Field("XMLName", "xml.Name", XmlNameTag(targetNamespace, name))] + RenderBody(h, ct);
    assert RenderStruct(h, targetNamespace, name, ct) == [open] + inner + [close];
    assert StructLines(inner);
    StructLinesDeclareNothing(inner);
    assert [open][1..] == [] && [close][1..] == [];
    assert Decls([open]) == [PublicName(h, name)] + Decls([]) && Consts([open]) == [] + Consts([]);
    assert Decls([close]) == [] && Consts([close]) == [];
    DeclsAppend([open], inner);
    DeclsAppend([open] + inner, [close]);
    ConstsAppend([open], inner);
    ConstsAppend([open] + inner, [close]);
  }

  lemma {:induction false} SimpleTypesLayout(h: Naming, sts: seq<SimpleType>)
    ensures var r := RenderSimpleTypes(h, sts);
      Balanced(r) && CommentsAttached(r)
    decreases |sts|
  {
    if sts == [] {
      assert RenderSimpleTypes(h, sts) == [];
    } else {
      var a, b := RenderSimpleType(h, sts[0]), RenderSimpleTypes(h, sts[1..]);
      SimpleTypeLayout(h, sts[0]);
      SimpleTypesLayout(h, sts[1..]);
      BalancedAppend(a, b);
      CommentsAttachedAppend(a, b);
    }
  }

  /** The simple-type loop's constants: each simple type's enumeration
      constants, in schema order. */
  lemma {:induction false} SimpleTypesConstants(h: Naming, sts: seq<SimpleType>)
    ensures Consts(RenderSimpleTypes(h, sts)) == SimpleTypesConsts(h, sts)
    decreases |sts|
  {
    if sts == [] {
      assert RenderSimpleTypes(h, sts) == [];
    } else {
      SimpleTypeConstants(h, sts[0]);
      SimpleTypesConstants(h, sts[1..]);
      ConstsAppend(RenderSimpleType(h, sts[0]), RenderSimpleTypes(h, sts[1..]));
    }
  }

  /** The driver's simple-type loop declares the simple types, in schema order. */
  lemma {:induction false} SimpleTypesDecls(h: Naming, sts: seq<SimpleType>)
    ensures Decls(RenderSimpleTypes(h, sts)) == SimpleTypeNames(h, sts)
    decreases |sts|
  {
    if sts == [] {
      assert RenderSimpleTypes(h, sts) == [];
    } else {
      var a, b := RenderSimpleType(h, sts[0]), RenderSimpleTypes(h, sts[1..]);
      SimpleTypeDecls(h, sts[0]);
      SimpleTypesDecls(h, sts[1..]);
      DeclsAppend(a, b);
      SimpleTypeNamesCons(h, sts);
    }
  }

  lemma {:induction false} TopElementsLayout(h: Naming, targetNamespace: string, els: seq<Element>)
    ensures var r := RenderTopElements(h, targetNamespace, els);
      Balanced(r) && CommentsAttached(r)
    decreases |els|
  {
    if els == [] {
      assert RenderTopElements(h, targetNamespace, els) == [];
    } else {
      var e := els[0];
      var a: seq<Line> := if e.typ == "" && e.complexType.Some? then RenderStruct(h, targetNamespace, e.name, e.complexType.value) else [];
      var b := RenderTopElements(h, targetNamespace, els[1..]);
      if e.typ == "" && e.complexType.Some? {
        StructLayout(h, targetNamespace, e.name, e.complexType.value);
      }
      TopElementsLayout(h, targetNamespace, els[1..]);
      BalancedAppend(a, b);
      CommentsAttachedAppend(a, b);
    }
  }

  /** Read back, the element loop declares one struct for each untyped
      element that carries a complex type, in order, each with its own
      members. */
  lemma {:induction false} TopElementsContents(h: Naming, targetNamespace: string, els: seq<Element>)
    ensures Structs(RenderTopElements(h, targetNamespace, els)) == AnonymousElementStructs(h, targetNamespace, els)
    decreases |els|
  {
    if els == [] {
      assert RenderTopElements(h, targetNamespace, els) == [];
    } else {
      var e := els[0];
      var a: seq<Line> := if e.typ == "" && e.complexType.Some? then RenderStruct(h, targetNamespace, e.name, e.complexType.value) else [];
      var b := RenderTopElements(h, targetNamespace, els[1..]);
      if e.typ == "" && e.complexType.Some? {
        StructLayout(h, targetNamespace, e.name, e.complexType.value);
        StructContents(h, targetNamespace, e.name, e.complexType.value);
      }
      TopElementsContents(h, targetNamespace, els[1..]);
      StructsFromAppend(a, b, 0);
    }
  }

  /** The driver's element loop declares exactly the untyped top-level
      elements that carry a complex type, in order, and no constant. */
  lemma {:induction false} TopElementsDecls(h: Naming, targetNamespace: string, els: seq<Element>)
    ensures var r := RenderTopElements(h, targetNamespace, els);
      Decls(r) == AnonymousElementNames(h, els) && Consts(r) == []
    decreases |els|
  {
    if els == [] {
      assert RenderTopElements(h, targetNamespace, els) == [];
    } else {
      var e := els[0];
      var a: seq<Line> := if e.typ == "" && e.complexType.Some? then RenderStruct(h, targetNamespace, e.name, e.complexType.value) else [];
      var b := RenderTopElements(h, targetNamespace, els[1..]);
      if e.typ == "" && e.complexType.Some? {
        StructDecls(h, targetNamespace, e.name, e.complexType.value);
      }
      TopElementsDecls(h, targetNamespace, els[1..]);
      DeclsAppend(a, b);
      ConstsAppend(a, b);
    }
  }

  /** A typed top-level element, or one without a complex type, adds no
      line at all to the driver's output. */
  lemma TypedTopElementEmitsNothing(h: Naming, targetNamespace: string, e: Element, rest: seq<Element>)
    requires e.typ != "" || e.complexType.None?
    ensures RenderTopElements(h, targetNamespace, [e] + rest) == RenderTopElements(h, targetNamespace, rest)
  {
    assert ([e] + rest)[0] == e && ([e] + rest)[1..] == rest;
  }

  lemma {:induction false} ComplexTypesLayout(h: Naming, targetNamespace: string, cts: seq<ComplexType>)
    ensures var r := RenderComplexTypes(h, targetNamespace, cts);
      Balanced(r) && CommentsAttached(r)
    decreases |cts|
  {
    if cts == [] {
      assert RenderComplexTypes(h, targetNamespace, cts) == [];
    } else {
      var a, b := RenderStruct(h, targetNamespace, cts[0].name, cts[0]), RenderComplexTypes(h, targetNamespace, cts[1..]);
      StructLayout(h, targetNamespace, cts[0].name, cts[0]);
      ComplexTypesLayout(h, targetNamespace, cts[1..]);
      BalancedAppend(a, b);
      CommentsAttachedAppend(a, b);
    }
  }

  /** The driver's complex-type loop declares the complex types, in schema
      order, and no constant. */
  lemma {:induction false} ComplexTypesDecls(h: Naming, targetNamespace: string, cts: seq<ComplexType>)
    ensures var r := RenderComplexTypes(h, targetNamespace, cts);
      Decls(r) == ComplexTypeNames(h, cts) && Consts(r) == []
    decreases |cts|
  {
    if cts == [] {
      assert RenderComplexTypes(h, targetNamespace, cts) == [];
    } else {
      var a, b := RenderStruct(h, targetNamespace, cts[0].name, cts[0]), RenderComplexTypes(h, targetNamespace, cts[1..]);
      StructDecls(h, targetNamespace, cts[0].name, cts[0]);
      ComplexTypesDecls(h, targetNamespace, cts[1..]);
      DeclsAppend(a, b);
      ConstsAppend(a, b);
      ComplexTypeNamesCons(h, cts);
    }
  }

  /** Read back, the complex-type loop declares one struct per complex type,
      in order, each with its own name, `XMLName` tag and members. */
  lemma {:induction false} ComplexTypesContents(h: Naming, targetNamespace: string, cts: seq<ComplexType>)
    ensures Structs(RenderComplexTypes(h, targetNamespace, cts)) == ComplexTypeStructs(h, targetNamespace, cts)
    decreases |cts|
  {
    if cts == [] {
      assert RenderComplexTypes(h, targetNamespace, cts) == [];
    } else {
      var a, b := RenderStruct(h, targetNamespace, cts[0].name, cts[0]), RenderComplexTypes(h, targetNamespace, cts[1..]);
      StructLayout(h, targetNamespace, cts[0].name, cts[0]);
      StructContents(h, targetNamespace, cts[0].name, cts[0]);
      ComplexTypesContents(h, targetNamespace, cts[1..]);
      StructsFromAppend(a, b, 0);
    }
  }

  /** One schema: its simple types, then its anonymous top-level elements,
      then its complex types, in that order. */
  lemma SchemaDecls(h: Naming, s: Schema)
    ensures Decls(RenderSchema(h, s)) == SchemaTypeNames(h, s)
  {
    var a := RenderSimpleTypes(h, s.simpleTypes);
    var b := RenderTopElements(h, s.targetNamespace, s.elements);
    var c := RenderComplexTypes(h, s.targetNamespace, s.complexTypes);
    SimpleTypesDecls(h, s.simpleTypes);
    TopElementsDecls(h, s.targetNamespace, s.elements);
    ComplexTypesDecls(h, s.targetNamespace, s.complexTypes);
    DeclsAppend(a, b);
    DeclsAppend(a + b, c);
  }

  /** The whole artifact declares the types of each schema in turn, in the
      order the schemas come. */
  lemma {:induction false} SchemasDecls(h: Naming, schemas: seq<Schema>)
    ensures Decls(RenderSchemas(h, schemas)) == SchemasTypeNames(h, schemas)
    decreases |schemas|
  {
    if schemas == [] {
      assert RenderSchemas(h, schemas) == [];
    } else {
      SchemaDecls(h, schemas[0]);
      SchemasDecls(h, schemas[1..]);
      DeclsAppend(RenderSchema(h, schemas[0]), RenderSchemas(h, schemas[1..]));
    }
  }

  /** Of one schema's output, only the simple types contribute constants. */
  lemma SchemaConstants(h: Naming, s: Schema)
    ensures Consts(RenderSchema(h, s)) == Consts(RenderSimpleTypes(h, s.simpleTypes))
    ensures Consts(RenderSchema(h, s)) == SimpleTypesConsts(h, s.simpleTypes)
  {
    var a := RenderSimpleTypes(h, s.simpleTypes);
    var b := RenderTopElements(h, s.targetNamespace, s.elements);
    var c := RenderComplexTypes(h, s.targetNamespace, s.complexTypes);
    TopElementsDecls(h, s.targetNamespace, s.elements);
    ComplexTypesDecls(h, s.targetNamespace, s.complexTypes);
    ConstsAppend(a, b);
    ConstsAppend(a + b, c);
    SimpleTypesConstants(h, s.simpleTypes);
  }

  /** The whole artifact's constants: every simple type's enumeration
      constants, schema after schema and type after type. */
  lemma {:induction false} SchemasConstants(h: Naming, schemas: seq<Schema>)
    ensures Consts(RenderSchemas(h, schemas)) == SchemasConsts(h, schemas)
    decreases |schemas|
  {
    if schemas == [] {
      assert RenderSchemas(h, schemas) == [];
    } else {
      SchemaConstants(h, schemas[0]);
      SchemasConstants(h, schemas[1..]);
      ConstsAppend(RenderSchema(h, schemas[0]), RenderSchemas(h, schemas[1..]));
    }
  }

  /** The simple types' constant blocks declare no struct. */
  lemma SimpleTypesStructless(h: Naming, sts: seq<SimpleType>)
    ensures Structs(RenderSimpleTypes(h, sts)) == []
  {
    assert SimpleTypeLines(RenderSimpleTypes(h, sts));
    NoStructs(RenderSimpleTypes(h, sts), 0);
  }

  /** Read back, the schema's output declares its anonymous elements'
      structs, then its complex types' structs, each with its own members;
      its simple types open no struct. */
  lemma {:induction false} SchemaContents(h: Naming, s: Schema)
    ensures Structs(RenderSchema(h, s)) == SchemaStructs(h, s)
  {
    var a := RenderSimpleTypes(h, s.simpleTypes);
    var b := RenderTopElements(h, s.targetNamespace, s.elements);
    var c := RenderComplexTypes(h, s.targetNamespace, s.complexTypes);
    var x := AnonymousElementStructs(h, s.targetNamespace, s.elements);
    var y := ComplexTypeStructs(h, s.targetNamespace, s.complexTypes);
    assert Balanced(a) && Structs(a) == [] by {
      SimpleTypesLayout(h, s.simpleTypes);
      SimpleTypesStructless(h, s.simpleTypes);
    }
    assert Balanced(b) && Structs(b) == x by {
      TopElementsLayout(h, s.targetNamespace, s.elements);
      TopElementsContents(h, s.targetNamespace, s.elements);
    }
    assert Structs(c) == y by {
      ComplexTypesContents(h, s.targetNamespace, s.complexTypes);
    }
    StructsOfParts(a, b, c, x, y);
  }

  /** The whole artifact's structs, schema after schema, each with its own
      name, `XMLName` tag and members. */
  lemma {:induction false} SchemasContents(h: Naming, schemas: seq<Schema>)
    ensures Structs(RenderSchemas(h, schemas)) == SchemasStructs(h, schemas)
    decreases |schemas|
  {
    if schemas == [] {
      assert RenderSchemas(h, schemas) == [];
    } else {
      SchemaLayout(h, schemas[0]);
      SchemaContents(h, schemas[0]);
      SchemasContents(h, schemas[1..]);
      StructsFromAppend(RenderSchema(h, schemas[0]), RenderSchemas(h, schemas[1..]), 0);
    }
  }

  lemma SchemaLayout(h: Naming, s: Schema)
    ensures var r := RenderSchema(h, s);
      Balanced(r) && CommentsAttached(r)
  {
    var a := RenderSimpleTypes(h, s.simpleTypes);
    var b := RenderTopElements(h, s.targetNamespace, s.elements);
    var c := RenderComplexTypes(h, s.targetNamespace, s.complexTypes);
    SimpleTypesLayout(h, s.simpleTypes);
    TopElementsLayout(h, s.targetNamespace, s.elements);
    ComplexTypesLayout(h, s.targetNamespace, s.complexTypes);
    BalancedAppend(a, b);
    BalancedAppend(a + b, c);
    CommentsAttachedAppend(a, b);
    CommentsAttachedAppend(a + b, c);
  }

  /** The whole types artifact: every documentation comment is followed by
      a field or a constant, and every struct that is opened is closed. */
  lemma {:induction false} SchemasRender(h: Naming, schemas: seq<Schema>)
    ensures var r := RenderSchemas(h, schemas);
      Balanced(r) && CommentsAttached(r)
    decreases |schemas|
  {
    if schemas == [] {
      assert RenderSchemas(h, schemas) == [];
    } else {
      SchemaLayout(h, schemas[0]);
      SchemasRender(h, schemas[1..]);
      BalancedAppend(RenderSchema(h, schemas[0]), RenderSchemas(h, schemas[1..]));
      CommentsAttachedAppend(RenderSchema(h, schemas[0]), RenderSchemas(h, schemas[1..]));
    }
  }

  // --------------------------------------------------------- whole read-back

  /** A field or constant after its optional comment reads back as one
      declaration carrying exactly that comment. */
  lemma DocumentedTree(h: Naming, doc: string, m: Line)
    requires IsDocumentable(m)
    ensures Tree(DocLines(h, doc) + [m]) == [Documented(h, doc, m)]
  {
    if doc == "" {
      assert DocLines(h, doc) + [m] == [m];
      FlatTree(m);
    } else {
      var c := Comment(h.comment(doc));
      assert DocLines(h, doc) + [m] == [c, m];
      assert [c, m][2..] == [];
      assert TreeFrom([c, m], 0) == [Decl([c], m, [], [])] + TreeFrom([], 0);
    }
  }

  /** Template `Attributes`, read back whole: each attribute's member under
      its own comment, in order. */
  lemma {:induction false} AttributesTree(h: Naming, attrs: seq<Attribute>)
    ensures Tree(RenderAttributes(h, attrs)) == AttributesOutline(h, attrs)
    decreases |attrs|
  {
    if attrs == [] {
      assert RenderAttributes(h, attrs) == [];
    } else {
      var a := attrs[0];
      var head := DocLines(h, a.doc) + [AttributeMember(h, a)];
      assert RenderAttributes(h, attrs) == head + RenderAttributes(h, attrs[1..]);
      DocumentedMember(h, a.doc, AttributeMember(h, a));
      DocumentedTree(h, a.doc, AttributeMember(h, a));
      TreeAppend(head, RenderAttributes(h, attrs[1..]));
      AttributesTree(h, attrs[1..]);
    }
  }

  /** Template `Elements`, read back whole: one declaration per particle, in
      order, with its comment and, for an inline struct, its whole body. */
  lemma {:induction false} ElementsTree(h: Naming, els: seq<Element>)
    ensures Tree(RenderElements(h, els)) == ParticlesOutline(h, els)
    decreases els
  {
    if els == [] {
      assert RenderElements(h, els) == [];
    } else {
      ElementRender(h, els[0]);
      ElementTree(h, els[0]);
      ElementsTree(h, els[1..]);
      TreeAppend(RenderElement(h, els[0]), RenderElements(h, els[1..]));
    }
  }

  lemma {:induction false} ElementTree(h: Naming, e: Element)
    ensures Tree(RenderElement(h, e)) == [ParticleOutline(h, e)]
    decreases e, 1
  {
    ElementRender(h, e);
    if e.ref != "" {
      FlatTree(ParticleMember(h, e));
    } else if e.typ == "" {
      InlineTree(h, e);
    } else {
      DocumentedTree(h, e.doc, ParticleMember(h, e));
    }
  }

  /** Template `ComplexTypeInline`, read back whole: one declaration holding
      the whole body of the particle's own complex type. */
  lemma {:induction false} InlineTree(h: Naming, e: Element)
    ensures Tree(RenderComplexTypeInline(h, e)) == [InlineOutline(h, e)]
    decreases e, 0
  {
    var open, close := InlineOpen(PublicName(h, e.name)), InlineClose(ElementTag(e.name));
    var body: seq<Line> := match e.complexType case None => [] case Some(ct) => RenderBody(h, ct);
    assert RenderComplexTypeInline(h, e) == [open] + body + [close];
    match e.complexType {
      case None =>
        assert Balanced(body);
        assert Tree(body) == [];
      case Some(ct) =>
        BodyRender(h, ct);
        BodyTree(h, ct);
    }
    TreeBlock(open, body, close);
  }

  /** The content dispatch, read back whole. */
  lemma {:induction false} BodyTree(h: Naming, ct: ComplexType)
    ensures Tree(RenderBody(h, ct)) == BodyOutline(h, ct)
    decreases ct
  {
    if ct.complexContent.extension.base != "" {
      ComplexContentTree(h, ct.complexContent);
    } else if ct.simpleContent.extension.base != "" {
      SimpleContentTree(h, ct.simpleContent);
    } else {
      var a, b, c, d := RenderElements(h, ct.sequence), RenderElements(h, ct.choice),
        RenderElements(h, ct.sequenceChoice), RenderElements(h, ct.all);
      var e := RenderAttributes(h, ct.attributes);
      assert Balanced(a) && CommentsAttached(a) && Tree(a) == ParticlesOutline(h, ct.sequence) by {
        ElementsRender(h, ct.sequence);
        ElementsTree(h, ct.sequence);
      }
      assert Balanced(b) && CommentsAttached(b) && Tree(b) == ParticlesOutline(h, ct.choice) by {
        ElementsRender(h, ct.choice);
        ElementsTree(h, ct.choice);
      }
      assert Balanced(c) && CommentsAttached(c) && Tree(c) == ParticlesOutline(h, ct.sequenceChoice) by {
        ElementsRender(h, ct.sequenceChoice);
        ElementsTree(h, ct.sequenceChoice);
      }
      assert Balanced(d) && CommentsAttached(d) && Tree(d) == ParticlesOutline(h, ct.all) by {
        ElementsRender(h, ct.all);
        ElementsTree(h, ct.all);
      }
      assert Tree(e) == AttributesOutline(h, ct.attributes) by {
        AttributesTree(h, ct.attributes);
      }
      TreeOfFive(a, b, c, d, e, ParticlesOutline(h, ct.sequence), ParticlesOutline(h, ct.choice),
        ParticlesOutline(h, ct.sequenceChoice), ParticlesOutline(h, ct.all), AttributesOutline(h, ct.attributes));
    }
  }

  /** Template `ComplexContent`, read back whole. */
  lemma {:induction false} ComplexContentTree(h: Naming, cc: ComplexContent)
    ensures Tree(RenderComplexContent(h, cc)) == ComplexContentOutline(h, cc)
    decreases cc
  {
    var baseType := h.toGoType(cc.extension.base);
    var a: seq<Line> := if baseType != "" then [Embedded(baseType)] else [];
    var b, c := RenderElements(h, cc.extension.sequence), RenderAttributes(h, cc.extension.attributes);
    var x: seq<Decl> := if baseType != "" then [Bare(Embedded(baseType))] else [];
    assert Balanced(a) && CommentsAttached(a) && Tree(a) == x by {
      if baseType != "" {
        FlatTree(Embedded(baseType));
      }
    }
    assert Balanced(b) && CommentsAttached(b) && Tree(b) == ParticlesOutline(h, cc.extension.sequence) by {
      ElementsRender(h, cc.extension.sequence);
      ElementsTree(h, cc.extension.sequence);
    }
    assert Tree(c) == AttributesOutline(h, cc.extension.attributes) by {
      AttributesTree(h, cc.extension.attributes);
    }
    assert RenderComplexContent(h, cc) == a + b + c;
    TreeOfParts(a, b, c, x, ParticlesOutline(h, cc.extension.sequence), AttributesOutline(h, cc.extension.attributes));
  }

  /** Template `SimpleContent`, read back whole. */
  lemma SimpleContentTree(h: Naming, sc: SimpleContent)
    ensures Tree(RenderSimpleContent(h, sc)) == SimpleContentOutline(h, sc)
  {
    var value := Field("Value", h.toGoType(sc.extension.base), "");
    FlatTree(value);
    AttributesTree(h, sc.extension.attributes);
    TreeAppend([value], RenderAttributes(h, sc.extension.attributes));
  }

  /** A const block's entries, read back whole: each constant under its own
      comment. */
  lemma {:induction false} EnumerationTree(h: Naming, t: string, es: seq<Enumeration>)
    ensures Tree(RenderEnumeration(h, t, es)) == EntriesOutline(h, t, es)
    decreases |es|
  {
    if es == [] {
      assert RenderEnumeration(h, t, es) == [];
    } else {
      var e := es[0];
      var c := Const(t + PublicName(h, e.value), t, "\"" + h.goString(e.value) + "\"");
      var head, rest := DocLines(h, e.doc) + [c], RenderEnumeration(h, t, es[1..]);
      assert RenderEnumeration(h, t, es) == head + rest;
      EntryRender(h, e.doc, c);
      DocumentedTree(h, e.doc, c);
      TreeAppend(head, rest);
      EnumerationTree(h, t, es[1..]);
    }
  }

  /** Template `SimpleType`, read back whole: the type line with its
      underlying type, one const block, and in it each entry's constant under
      its own comment; nothing else. */
  lemma SimpleTypeTree(h: Naming, st: SimpleType)
    ensures Tree(RenderSimpleType(h, st)) == SimpleTypeOutline(h, st)
  {
    var t := PublicName(h, st.name);
    var decl := TypeDecl(t, h.goSimpleType(Some(st)));
    var entries := RenderEnumeration(h, t, Entries(st));
    assert RenderSimpleType(h, st) == [decl, ConstOpen] + entries + [ConstClose];
    assert Balanced([decl, ConstOpen]) && CommentsAttached([decl, ConstOpen])
        && Tree([decl, ConstOpen]) == [Bare(decl), Bare(ConstOpen)] by {
      FlatTree(decl);
      FlatTree(ConstOpen);
      BalancedAppend([decl], [ConstOpen]);
      CommentsAttachedAppend([decl], [ConstOpen]);
      TreeAppend([decl], [ConstOpen]);
      assert [decl] + [ConstOpen] == [decl, ConstOpen];
    }
    assert Balanced(entries) && CommentsAttached(entries) && Tree(entries) == EntriesOutline(h, t, Entries(st)) by {
      EnumerationLayout(h, t, Entries(st));
      EnumerationTree(h, t, Entries(st));
    }
    FlatTree(ConstClose);
    TreeOfParts([decl, ConstOpen], entries, [ConstClose],
      [Bare(decl), Bare(ConstOpen)], EntriesOutline(h, t, Entries(st)), [Bare(ConstClose)]);
  }

  /** The simple-type loop, read back whole. */
  lemma {:induction false} SimpleTypesTree(h: Naming, sts: seq<SimpleType>)
    ensures Tree(RenderSimpleTypes(h, sts)) == SimpleTypesOutline(h, sts)
    decreases |sts|
  {
    if sts == [] {
      assert RenderSimpleTypes(h, sts) == [];
    } else {
      SimpleTypeLayout(h, sts[0]);
      SimpleTypeTree(h, sts[0]);
      SimpleTypesTree(h, sts[1..]);
      TreeAppend(RenderSimpleType(h, sts[0]), RenderSimpleTypes(h, sts[1..]));
    }
  }

  /** A top-level struct, read back whole: one declaration holding the
      `XMLName` member and the whole body, comments and nested structs
      included. */
  lemma StructTree(h: Naming, targetNamespace: string, name: string, ct: ComplexType)
    ensures Tree(RenderStruct(h, targetNamespace, name, ct)) == [StructOutline(h, targetNamespace, name, ct)]
  {
    var xmlName := Field("XMLName", "xml.Name", XmlNameTag(targetNamespace, name));
    var body := RenderBody(h, ct);
    var inner := [xmlName] + body;
    assert RenderStruct(h, targetNamespace, name, ct) == [StructOpen(PublicName(h, name))] + inner + [StructClose];
    FlatTree(xmlName);
    BodyRender(h, ct);
    BodyTree(h, ct);
    BalancedAppend([xmlName], body);
    TreeAppend([xmlName], body);
    TreeBlock(StructOpen(PublicName(h, name)), inner, StructClose);
  }

  /** The element loop, read back whole. */
  lemma {:induction false} TopElementsTree(h: Naming, targetNamespace: string, els: seq<Element>)
    ensures Tree(RenderTopElements(h, targetNamespace, els)) == TopElementsOutline(h, targetNamespace, els)
    decreases |els|
  {
    if els == [] {
      assert RenderTopElements(h, targetNamespace, els) == [];
    } else {
      var e := els[0];
      var rest := RenderTopElements(h, targetNamespace, els[1..]);
      TopElementsTree(h, targetNamespace, els[1..]);
      if e.typ == "" && e.complexType.Some? {
        var a := RenderStruct(h, targetNamespace, e.name, e.complexType.value);
        assert RenderTopElements(h, targetNamespace, els) == a + rest;
        StructLayout(h, targetNamespace, e.name, e.complexType.value);
        StructTree(h, targetNamespace, e.name, e.complexType.value);
        TreeAppend(a, rest);
        assert TopElementsOutline(h, targetNamespace, els)
            == [StructOutline(h, targetNamespace, e.name, e.complexType.value)] + TopElementsOutline(h, targetNamespace, els[1..]);
      } else {
        assert RenderTopElements(h, targetNamespace, els) == [] + rest == rest;
        assert TopElementsOutline(h, targetNamespace, els) == [] + TopElementsOutline(h, targetNamespace, els[1..])
            == TopElementsOutline(h, targetNamespace, els[1..]);
      }
    }
  }

  /** The complex-type loop, read back whole. */
  lemma {:induction false} ComplexTypesTree(h: Naming, targetNamespace: string, cts: seq<ComplexType>)
    ensures Tree(RenderComplexTypes(h, targetNamespace, cts)) == ComplexTypesOutline(h, targetNamespace, cts)
    decreases |cts|
  {
    if cts == [] {
      assert RenderComplexTypes(h, targetNamespace, cts) == [];
    } else {
      var a := RenderStruct(h, targetNamespace, cts[0].name, cts[0]);
      StructLayout(h, targetNamespace, cts[0].name, cts[0]);
      StructTree(h, targetNamespace, cts[0].name, cts[0]);
      ComplexTypesTree(h, targetNamespace, cts[1..]);
      TreeAppend(a, RenderComplexTypes(h, targetNamespace, cts[1..]));
    }
  }

  /** One schema, read back whole. */
  lemma {:induction false} SchemaTree(h: Naming, s: Schema)
    ensures Tree(RenderSchema(h, s)) == SchemaOutline(h, s)
  {
    var a := RenderSimpleTypes(h, s.simpleTypes);
    var b := RenderTopElements(h, s.targetNamespace, s.elements);
    var c := RenderComplexTypes(h, s.targetNamespace, s.complexTypes);
    var x := SimpleTypesOutline(h, s.simpleTypes);
    var y := TopElementsOutline(h, s.targetNamespace, s.elements);
    var z := ComplexTypesOutline(h, s.targetNamespace, s.complexTypes);
    assert Balanced(a) && CommentsAttached(a) && Tree(a) == x by {
      SimpleTypesLayout(h, s.simpleTypes);
      SimpleTypesTree(h, s.simpleTypes);
    }
    assert Balanced(b) && CommentsAttached(b) && Tree(b) == y by {
      TopElementsLayout(h, s.targetNamespace, s.elements);
      TopElementsTree(h, s.targetNamespace, s.elements);
    }
    assert Tree(c) == z by {
      ComplexTypesTree(h, s.targetNamespace, s.complexTypes);
    }
    TreeOfParts(a, b, c, x, y, z);
  }

  /** The whole types artifact, read back whole: schema after schema, every
      declaration with its comment, its underlying type or member type, and
      every struct with its complete body. */
  lemma {:induction false} SchemasTree(h: Naming, schemas: seq<Schema>)
    ensures Tree(RenderSchemas(h, schemas)) == SchemasOutline(h, schemas)
    decreases |schemas|
  {
    if schemas == [] {
      assert RenderSchemas(h, schemas) == [];
    } else {
      SchemaLayout(h, schemas[0]);
      SchemaTree(h, schemas[0]);
      SchemasTree(h, schemas[1..]);
      TreeAppend(RenderSchema(h, schemas[0]), RenderSchemas(h, schemas[1..]));
    }
  }
}
