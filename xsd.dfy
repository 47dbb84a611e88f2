/** The in-memory XML Schema model that the types template walks.
    Only the fields the template reads are kept; the parser that builds the
    model from WSDL/XSD documents is not part of this model. */
module Xsd {

  /** A pointer field of the Go model that may be nil. */
  datatype Option<+T> = None | Some(value: T)

  /** One `<xs:enumeration>` facet: its value and its documentation text. */
  datatype Enumeration = Enumeration(value: string, doc: string)

  /** An `<xs:restriction>`: its base type and its enumeration facets. */
  datatype Restriction = Restriction(base: string, enumeration: seq<Enumeration>)

  /** A named simple type, reduced to what the template reads: its name and
      its restriction (nil when the schema gives none). */
  datatype SimpleType = SimpleType(name: string, restriction: Option<Restriction>)

  /** An attribute declaration: either a type reference (`typ`) or an inline simple type. */
  datatype Attribute = Attribute(name: string, doc: string, typ: string, simpleType: Option<SimpleType>)

  /** The `<xs:extension>` of a complex or simple content: its base, its
      sequence of particles and its attributes. */
  datatype Extension = Extension(base: string, sequence: seq<Element>, attributes: seq<Attribute>)

  datatype ComplexContent = ComplexContent(extension: Extension)

  datatype SimpleContent = SimpleContent(extension: Extension)

  /** A named or anonymous complex type. The content fields are plain values
      (never nil): an absent extension is one whose `base` is empty. */
  datatype ComplexType = ComplexType(
    name: string,
    complexContent: ComplexContent,
    simpleContent: SimpleContent,
    sequence: seq<Element>,
    choice: seq<Element>,
    sequenceChoice: seq<Element>,
    all: seq<Element>,
    attributes: seq<Attribute>)

  /** A particle (or top-level element). `ref` is empty unless the particle
      refers to another element; an empty `typ` means the element carries an
      anonymous `complexType` instead of a type reference. */
  datatype Element = Element(
    name: string,
    ref: string,
    typ: string,
    maxOccurs: string,
    doc: string,
    complexType: Option<ComplexType>)

  /** One `<xs:schema>` block. */
  datatype Schema = Schema(
    targetNamespace: string,
    simpleTypes: seq<SimpleType>,
    elements: seq<Element>,
    complexTypes: seq<ComplexType>)
}
