/** The types template: the named templates `SimpleType`, `ComplexContent`,
    `Attributes`, `SimpleContent`, `ComplexTypeInline` and `Elements`, and the
    driver that ranges over the schemas, as functions from the schema model
    to the lines of Go source they emit.

    The template repeats the same content dispatch (complex content, else
    simple content, else the particle groups and attributes) at three sites;
    here it is written once, as `RenderBody`, and called from all three. */
module TypesTemplate {
  import opened Xsd
  import opened GoNames
  import opened GoLines

  /** The `maxOccurs` value that turns a particle into a slice. */
  const Unbounded := "unbounded"

  /** `replaceReservedWords` then `makePublic`: the spelling of type names,
      constant suffixes, ref members and inline members. */
  function PublicName(h: Naming, s: string): (r: string) {
    h.makePublic(h.replaceReservedWords(s))
  }

  /** `replaceReservedWords` then `makeFieldPublic`: the spelling of typed members. */
  function FieldName(h: Naming, s: string): (r: string) {
    h.makeFieldPublic(h.replaceReservedWords(s))
  }

  /** The struct tag of an element member. */
  function ElementTag(name: string): (r: string) {
    "xml:\"" + name + ",omitempty\""
  }

  /** The struct tag of an attribute member. */
  function AttributeTag(name: string): (r: string) {
    "xml:\"" + name + ",attr,omitempty\""
  }

  /** The tag of the `XMLName` member of a top-level struct. */
  function XmlNameTag(targetNamespace: string, name: string): (r: string) {
    "xml:\"" + targetNamespace + " " + name + "\""
  }

  function SlicePrefix(maxOccurs: string): (r: string) {
    if maxOccurs == Unbounded then "[]" else ""
  }

  /** `{{if .Doc}} {{.Doc | comment}} {{end}}`: a comment line when there is documentation. */
  function DocLines(h: Naming, doc: string): (r: seq<Line>) {
    if doc == "" then [] else [Comment(h.comment(doc))]
  }

  /** Lines a simple type may emit: type declarations, const-block
      delimiters, constants and their comments. */
  predicate SimpleTypeLines(lines: seq<Line>) {
    forall l :: l in lines ==> l.TypeDecl? || l.ConstOpen? || l.Const? || l.ConstClose? || l.Comment?
  }

  /** Lines top-level structs may emit: their opening and closing lines and
      the lines of their bodies. */
  predicate StructText(lines: seq<Line>) {
    forall l :: l in lines ==> l.StructOpen? || l.StructClose? || IsStructLine(l)
  }

  /** The named simple and complex types of a schema. */
  function NamedTypes(s: Schema): nat {
    |s.simpleTypes| + |s.complexTypes|
  }

  function AllNamedTypes(schemas: seq<Schema>): nat
    decreases |schemas|
  {
    if schemas == [] then 0 else NamedTypes(schemas[0]) + AllNamedTypes(schemas[1..])
  }

  // ---------------------------------------------------------------- SimpleType

  /** Template `SimpleType`: the type declaration and its const block. */
  function RenderSimpleType(h: Naming, st: SimpleType): (r: seq<Line>)
    ensures |r| >= 3
    ensures r[0] == TypeDecl(PublicName(h, st.name), h.goSimpleType(Some(st)))
    ensures r[1] == ConstOpen && r[|r| - 1] == ConstClose
    ensures forall l :: l in r[2..|r| - 1] ==> l.Comment? || l.Const?
    ensures SimpleTypeLines(r)
  {
    var t := PublicName(h, st.name);
    var entries :=
      match st.restriction
      case None => []
      case Some(restriction) => RenderEnumeration(h, t, restriction.enumeration);
    var r := [TypeDecl(t, h.goSimpleType(Some(st))), ConstOpen] + entries + [ConstClose];
    assert r[2..|r| - 1] == entries;
    r
  }

  /** `{{range .Enumeration}}` inside `SimpleType`, for the type named `t`. */
  function RenderEnumeration(h: Naming, t: string, entries: seq<Enumeration>): (r: seq<Line>)
    ensures |r| >= |entries|
    ensures forall l :: l in r ==> l.Comment? || l.Const?
    decreases |entries|
  {
    if entries == [] then []
    else
      var e := entries[0];
      DocLines(h, e.doc)
      + [Const(t + PublicName(h, e.value), t, "\"" + h.goString(e.value) + "\"")]
      + RenderEnumeration(h, t, entries[1..])
  }

  // ---------------------------------------------------------------- Attributes

  /** Template `Attributes`: one member per attribute, each after its comment. */
  function RenderAttributes(h: Naming, attrs: seq<Attribute>): (r: seq<Line>)
    ensures StructLines(r)
    decreases |attrs|
  {
    if attrs == [] then []
    else
      var a := attrs[0];
      var typ := if a.typ == "" then h.goSimpleType(a.simpleType) else h.toGoType(a.typ);
      DocLines(h, a.doc)
      + [Field(h.makeFieldPublic(a.name), typ, AttributeTag(a.name))]
      + RenderAttributes(h, attrs[1..])
  }

  // ---------------------------------------------- Elements and nested structs

  /** Template `Elements`: the members of a particle group, in order. */
  function RenderElements(h: Naming, els: seq<Element>): (r: seq<Line>)
    ensures StructLines(r)
    decreases els
  {
    if els == [] then []
    else RenderElement(h, els[0]) + RenderElements(h, els[1..])
  }

  /** One iteration of `{{range .}}` in `Elements`: a ref member, an inline
      struct for an untyped particle, or a typed member after its comment. */
  function RenderElement(h: Naming, e: Element): (r: seq<Line>)
    ensures StructLines(r)
    decreases e, 1
  {
    if e.ref != "" then
      [Field(PublicName(h, h.removeNS(e.ref)),
             SlicePrefix(e.maxOccurs) + h.toGoType(e.ref),
             ElementTag(h.removeNS(e.ref)))]
    else if e.typ == "" then
      RenderComplexTypeInline(h, e)
    else
      DocLines(h, e.doc)
      + [Field(FieldName(h, e.name), SlicePrefix(e.maxOccurs) + h.toGoType(e.typ), ElementTag(e.name))]
  }

  /** Template `ComplexTypeInline`: an anonymous struct member whose body is
      the element's own complex type (empty when it has none). */
  function RenderComplexTypeInline(h: Naming, e: Element): (r: seq<Line>)
    ensures StructLines(r)
    decreases e, 0
  {
    [InlineOpen(PublicName(h, e.name))]
    + (match e.complexType
       case None => []
       case Some(ct) => RenderBody(h, ct))
    + [InlineClose(ElementTag(e.name))]
  }

  /** The content dispatch shared by `ComplexTypeInline` and both top-level
      struct templates. */
  function RenderBody(h: Naming, ct: ComplexType): (r: seq<Line>)
    ensures StructLines(r)
    decreases ct
  {
    if ct.complexContent.extension.base != "" then
      RenderComplexContent(h, ct.complexContent)
    else if ct.simpleContent.extension.base != "" then
      RenderSimpleContent(h, ct.simpleContent)
    else
      RenderElements(h, ct.sequence)
      + RenderElements(h, ct.choice)
      + RenderElements(h, ct.sequenceChoice)
      + RenderElements(h, ct.all)
      + RenderAttributes(h, ct.attributes)
  }

  /** Template `ComplexContent`: the embedded base (when it resolves to a
      non-empty Go type), then the extension's sequence and attributes. */
  function RenderComplexContent(h: Naming, cc: ComplexContent): (r: seq<Line>)
    ensures StructLines(r)
    decreases cc
  {
    var baseType := h.toGoType(cc.extension.base);
    (if baseType != "" then [Embedded(baseType)] else [])
    + RenderElements(h, cc.extension.sequence)
    + RenderAttributes(h, cc.extension.attributes)
  }

  /** Template `SimpleContent`: a `Value` member of the base type, then the
      extension's attributes. */
  function RenderSimpleContent(h: Naming, sc: SimpleContent): (r: seq<Line>)
    ensures StructLines(r)
  {
    [Field("Value", h.toGoType(sc.extension.base), "")]
    + RenderAttributes(h, sc.extension.attributes)
  }

  // ---------------------------------------------------------------- top level

  /** A top-level struct: used for an anonymous top-level element (named by
      the element) and for a named complex type. */
  function RenderStruct(h: Naming, targetNamespace: string, name: string, ct: ComplexType): (r: seq<Line>)
    ensures |r| >= 3
    ensures r[0] == StructOpen(PublicName(h, name)) && r[|r| - 1] == StructClose
    ensures r[1] == Field("XMLName", "xml.Name", XmlNameTag(targetNamespace, name))
    ensures StructLines(r[1..|r| - 1])
  {
    [StructOpen(PublicName(h, name)),
     Field("XMLName", "xml.Name", XmlNameTag(targetNamespace, name))]
    + RenderBody(h, ct)
    + [StructClose]
  }

  /** `{{range .SimpleType}}` of the driver. */
  function RenderSimpleTypes(h: Naming, sts: seq<SimpleType>): (r: seq<Line>)
    ensures |r| >= 3 * |sts|
    ensures SimpleTypeLines(r)
    decreases |sts|
  {
    if sts == [] then [] else RenderSimpleType(h, sts[0]) + RenderSimpleTypes(h, sts[1..])
  }

  /** `{{range .Elements}}` of the driver: a typed element, or one without a
      complex type, emits nothing. */
  function RenderTopElements(h: Naming, targetNamespace: string, els: seq<Element>): (r: seq<Line>)
    ensures StructText(r)
    decreases |els|
  {
    if els == [] then []
    else
      var e := els[0];
      (if e.typ == "" && e.complexType.Some? then RenderStruct(h, targetNamespace, e.name, e.complexType.value) else [])
      + RenderTopElements(h, targetNamespace, els[1..])
  }

  /** `{{range .ComplexTypes}}` of the driver. */
  function RenderComplexTypes(h: Naming, targetNamespace: string, cts: seq<ComplexType>): (r: seq<Line>)
    ensures |r| >= 3 * |cts|
    ensures StructText(r)
    decreases |cts|
  {
    if cts == [] then []
    else RenderStruct(h, targetNamespace, cts[0].name, cts[0]) + RenderComplexTypes(h, targetNamespace, cts[1..])
  }

  /** One iteration of `{{range .Schemas}}`. */
  function RenderSchema(h: Naming, s: Schema): (r: seq<Line>)
    ensures |r| >= 3 * NamedTypes(s)
  {
    RenderSimpleTypes(h, s.simpleTypes)
    + RenderTopElements(h, s.targetNamespace, s.elements)
    + RenderComplexTypes(h, s.targetNamespace, s.complexTypes)
  }

  /** The whole types artifact. */
  function RenderSchemas(h: Naming, schemas: seq<Schema>): (r: seq<Line>)
    ensures |r| >= 3 * AllNamedTypes(schemas)
    decreases |schemas|
  {
    if schemas == [] then [] else RenderSchema(h, schemas[0]) + RenderSchemas(h, schemas[1..])
  }
}
