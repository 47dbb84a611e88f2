# gowsdl types template, in Dafny

gowsdl turns a WSDL document and its embedded XML Schema into Go source. Its
`types` artifact comes from one Go `text/template` program, `typesTmpl`. That
program walks the parsed schema model and writes Go declarations:

- a simple type becomes a named Go type and a `const ( … )` block with one
  constant per enumeration entry;
- a complex type becomes a `struct`. Its body is chosen in this order: the
  complex-content extension (an embedded base, the extension's sequence and
  attributes), else the simple-content extension (a `Value` member and
  attributes), else the `sequence`, `choice`, `sequence>choice` and `all`
  particle groups followed by the attributes;
- each particle becomes one member. A `ref` particle is named after the
  element it refers to. A typed particle is named after itself. An untyped
  particle becomes an anonymous inline struct, rendered by recursion into its
  own complex type;
- each attribute becomes a member tagged `,attr`;
- per schema, the simple types come first, then the top-level elements that
  carry an anonymous complex type, then the named complex types. Each
  top-level struct carries an `XMLName` member tagged with the target
  namespace.

The project models this template as pure functions from the schema model to
a sequence of output lines:

- `xsd.dfy` (module `Xsd`): the schema model the template reads;
- `naming.dfy` (module `GoNames`): the naming and type-resolution helpers
  the template calls, as a record of functions (`Naming`);
- `go_lines.dfy` (module `GoLines`): the output `Line` datatype, and readers
  over a line sequence. `Members` gives the members a struct body declares
  at its own nesting level. `Decls` gives the declared type names and
  `Consts` the constants. `Docs` gives, for each field or constant, the
  comment line standing above it. `Structs` gives each top-level struct's
  name together with the members its body declares. `Tree` reads the lines
  back whole: each top-level declaration with the comment standing above it
  and, for a struct, the declarations of its body, read the same way.
  `Balanced` and `CommentsAttached` are predicates over the lines;
- `types_tmpl.dfy` (module `TypesTemplate`): one function per named template,
  plus the `range .Schemas` driver;
- `types_props.dfy` (module `TypesTemplateProps`): reference definitions and
  the lemmas that connect them to the renderers. Some references are
  member-level (`ParticleMember`, `AttributeMember`, `BodyMembers`, …).
  Others are outlines of the whole text, with comments and nested bodies
  (`ParticleOutline`, `BodyOutline`, …, `SchemasOutline`).

The helper definitions are outside this model. Every renderer therefore
takes a `Naming` value, and every lemma holds for all of them.
The generator itself already lets its caller supply `makePublic`
(`makePublicFn` in gowsdl_test.go).

The template's content dispatch appears three times: in `ComplexTypeInline`,
for top-level elements and for top-level complex types. The three copies are
identical, so the model writes the dispatch once, as
`TypesTemplate.RenderBody`, and calls it from all three sites.

Behaviour of the template worth noting:

- an untyped (inline) particle never becomes a slice, whatever its
  `maxOccurs`;
- a `ref` member's name is `makePublic(replaceReservedWords(removeNS(ref)))`,
  but its type is `toGoType(ref)` applied to the unstripped reference;
- attribute member names go through `makeFieldPublic` only, with no
  reserved-word replacement;
- the template has no error path: unresolved type names are a matter for
  `toGoType`, which is outside this model.

## Model

| member | source | states |
|---|---|---|
| `TypesTemplate.RenderSimpleType` | types_tmpl.go:8-18 | the first line is `type T goSimpleType(st)` with `T` the public spelling of the name, the second is `const (` and the last `)`; every line in between is a constant or a comment, so there is exactly one const block |
| `TypesTemplate.RenderEnumeration` | types_tmpl.go:13-16 | a const block's entries are only constants and comments, at least one line per entry |
| `TypesTemplate.RenderAttributes` | types_tmpl.go:30-39 | attribute output holds only struct-body lines: no type declaration and no constant |
| `TypesTemplate.RenderElements` | types_tmpl.go:63-77 | particle-group output holds only struct-body lines |
| `TypesTemplate.RenderElement` | types_tmpl.go:64-76 | one particle's output holds only struct-body lines |
| `TypesTemplate.RenderComplexTypeInline` | types_tmpl.go:45-61 | an inline struct holds only struct-body lines |
| `TypesTemplate.RenderBody` | types_tmpl.go:47-59 | a struct body, under all three dispatch branches, holds only struct-body lines |
| `TypesTemplate.RenderComplexContent` | types_tmpl.go:20-28 | complex-content output holds only struct-body lines |
| `TypesTemplate.RenderSimpleContent` | types_tmpl.go:41-43 | simple-content output holds only struct-body lines |
| `TypesTemplate.RenderStruct` | types_tmpl.go:91-125 | `type Name' struct {` first and `}` last, the `XMLName` member second, and only struct-body lines in between |
| `TypesTemplate.RenderSimpleTypes` | types_tmpl.go:82-84 | at least three lines per simple type, and only type declarations, const blocks and comments |
| `TypesTemplate.RenderTopElements` | types_tmpl.go:86-107 | only top-level structs: their opening and closing lines and struct-body lines |
| `TypesTemplate.RenderComplexTypes` | types_tmpl.go:109-126 | at least three lines per complex type, all of them top-level struct text |
| `TypesTemplate.RenderSchema` | types_tmpl.go:80-126 | at least three lines for every named simple and complex type of the schema |
| `TypesTemplate.RenderSchemas` | types_tmpl.go:79-127 | at least three lines for every named simple and complex type of every schema |
| `TypesTemplateProps.EntryRender` | types_tmpl.go:14-15 | an entry's output is its comment (when it has documentation) on its own line, directly followed by exactly one constant and nothing else |
| `TypesTemplateProps.EnumerationLayout` | types_tmpl.go:13-15 | the entries of a const block declare no type, and each comment is followed by a constant |
| `TypesTemplateProps.EnumerationDocumented` | types_tmpl.go:14-15 | each entry's documentation is emitted as a comment line right above that entry's own constant; an undocumented entry's constant carries none (`DocsOf`) |
| `TypesTemplateProps.EnumerationConstants` | types_tmpl.go:13-15 | exactly one constant per entry, in input order (`EnumerationConsts`): named `T` + `makePublic(replaceReservedWords(value))`, typed `T`, valued by the quoted `goString(value)` |
| `TypesTemplateProps.SimpleTypeLayout` | types_tmpl.go:8-18 | balanced, every comment is followed by a constant, and with no restriction exactly the three lines `type T goSimpleType(st)`, `const (`, `)` |
| `TypesTemplateProps.SimpleTypeDecls` | types_tmpl.go:8-9 | `T`, the public spelling of the simple type's name, is the only type it declares |
| `TypesTemplateProps.SimpleTypeConstants` | types_tmpl.go:10-17 | its constants are exactly `EnumerationConsts` of its restriction's entries; none without a restriction |
| `TypesTemplateProps.SimpleTypeDocumented` | types_tmpl.go:12-16 | each enumeration entry's documentation stands right above that entry's constant, and nowhere else |
| `TypesTemplateProps.ConstantNamesDistinct` | types_tmpl.go:15 | if the value-naming helpers are injective, distinct entry values give distinct constant names (so a test can find exactly one match per constant) |
| `TypesTemplateProps.DocumentedMember` | types_tmpl.go:71-74 | a documentation comment is its own line, followed on the next non-blank line by the member it documents; never merged into it (the regression checked at gowsdl_test.go:28) |
| `TypesTemplateProps.AttributesRender` | types_tmpl.go:30-39 | exactly one member per attribute, in order, each `AttributeMember`: named `makeFieldPublic(Name)`, typed `goSimpleType(SimpleType)` when `Type` is empty else `toGoType(Type)`, tagged `xml:"Name,attr,omitempty"`; every comment is followed by a field |
| `TypesTemplateProps.AttributesDocumented` | types_tmpl.go:31-34 | each attribute's documentation is emitted as a comment line above that attribute's own member; an undocumented attribute's member carries none (`DocsOf`) |
| `TypesTemplateProps.ElementsRender` | types_tmpl.go:63-77 | read back at its own level, a particle group declares exactly one member per particle, in order (`ParticleMembers`). Nested inline members stay hidden, every inline struct is closed, and every comment is followed by a field |
| `TypesTemplateProps.ElementRender` | types_tmpl.go:64-76 | three exclusive cases. With `Ref` non-empty: exactly one line, the ref member, with no comment. Otherwise, with `Type` empty: the inline struct. Otherwise: the optional comment, then the typed member it documents. A `[]` prefix appears exactly for `maxOccurs` `unbounded` on ref and typed members |
| `TypesTemplateProps.InlineRender` | types_tmpl.go:45-61 | `makePublic(replaceReservedWords(Name)) struct {` … `` } `xml:"Name,omitempty"` ``. The members inside are exactly those of the particle's own complex type, or none when it has none |
| `TypesTemplateProps.RefParticleIgnoresOwnFields` | types_tmpl.go:65-66 | a ref particle's output depends only on `Ref` and `MaxOccurs`: its name, type, inline type and documentation never reach the output |
| `TypesTemplateProps.InlineParticleIgnoresMaxOccurs` | types_tmpl.go:68-69 | an inline particle's output does not depend on its `MaxOccurs` or its documentation |
| `TypesTemplateProps.BodyRender` | types_tmpl.go:48-58 | a struct body declares exactly `BodyMembers`, in order. Precedence: a non-empty complex-content base, else a non-empty simple-content base, else Sequence, Choice, SequenceChoice, All, then Attributes |
| `TypesTemplateProps.ComplexContentTakesPrecedence` | types_tmpl.go:48-49 | with a non-empty complex-content base, nothing else in the complex type affects its body |
| `TypesTemplateProps.SimpleContentTakesPrecedence` | types_tmpl.go:50-51 | with no complex content and a non-empty simple-content base, the particle groups and attributes do not affect the body |
| `TypesTemplateProps.ComplexContentRender` | types_tmpl.go:20-28 | declares the embedded base only when `toGoType(Base)` is non-empty, then the extension's sequence members, then its attribute members; nothing else |
| `TypesTemplateProps.SimpleContentRender` | types_tmpl.go:41-43 | declares `Value toGoType(Base)` then the extension's attribute members |
| `TypesTemplateProps.StructMembers` | types_tmpl.go:112-125 | between its opening and closing lines, a top-level struct declares the `XMLName xml.Name` member tagged `xml:"<tns> <raw name>"`, then exactly the body members (`BodyMembers`) |
| `TypesTemplateProps.StructLayout` | types_tmpl.go:109-125 | a top-level struct is balanced, and every comment in it is followed by a field |
| `TypesTemplateProps.StructDecls` | types_tmpl.go:109-125 | a top-level struct declares exactly one type, its own, and no constant |
| `TypesTemplateProps.StructContents` | types_tmpl.go:91-125 | read back as a whole, a top-level struct declares one struct, its own (`StructOf`): its public name, the `XMLName` member, then exactly the body members |
| `TypesTemplateProps.SimpleTypesLayout` | types_tmpl.go:82-84 | the simple-type loop's output is balanced, and every comment is followed by a constant |
| `TypesTemplateProps.SimpleTypesDecls` | types_tmpl.go:82-84 | declares the simple types' names in schema order |
| `TypesTemplateProps.SimpleTypesConstants` | types_tmpl.go:82-84 | the simple-type loop's constants are exactly, simple type after simple type, `EnumerationConsts` of each type's own entries under its own public name (`SimpleTypesConsts`) |
| `TypesTemplateProps.SimpleTypesStructless` | types_tmpl.go:82-84 | the simple-type loop declares no struct |
| `TypesTemplateProps.TopElementsLayout` | types_tmpl.go:86-107 | the element loop's output is balanced, and every comment is followed by a field |
| `TypesTemplateProps.TopElementsDecls` | types_tmpl.go:86-107 | declares exactly the untyped top-level elements that carry a complex type, in order, and no constant |
| `TypesTemplateProps.TopElementsContents` | types_tmpl.go:86-107 | the element loop's structs are exactly, in order, one per untyped element carrying a complex type: named `makePublic(replaceReservedWords(name))`, declaring the `XMLName` member tagged with the namespace and the raw name, then `BodyMembers` of that element's own complex type (`AnonymousElementStructs`) |
| `TypesTemplateProps.TypedTopElementEmitsNothing` | types_tmpl.go:87-90 | a typed top-level element, or one without a complex type, adds no line at all to the loop's output |
| `TypesTemplateProps.ComplexTypesLayout` | types_tmpl.go:109-126 | the complex-type loop's output is balanced, and every comment is followed by a field |
| `TypesTemplateProps.ComplexTypesDecls` | types_tmpl.go:109-126 | declares the named complex types in schema order, and no constant |
| `TypesTemplateProps.ComplexTypesContents` | types_tmpl.go:109-126 | the complex-type loop's structs are exactly, one per complex type in order, its public name with the `XMLName` member and then its own `BodyMembers` (`ComplexTypeStructs`) |
| `TypesTemplateProps.SchemaDecls` | types_tmpl.go:79-127 | per schema: simple types, then anonymous top-level elements, then complex types, in schema order |
| `TypesTemplateProps.SchemaConstants` | types_tmpl.go:79-127 | of one schema's output, only the simple types contribute constants: exactly `SimpleTypesConsts` of its simple types |
| `TypesTemplateProps.SchemasDecls` | types_tmpl.go:79-127 | the artifact declares each schema's types in turn, in the order the schemas come |
| `TypesTemplateProps.SchemaContents` | types_tmpl.go:79-127 | one schema's structs are its anonymous elements' structs then its complex types' structs, each with its own name and members (`SchemaStructs`) |
| `TypesTemplateProps.SchemasContents` | types_tmpl.go:79-127 | the artifact's structs are each schema's in turn (`SchemasStructs`) |
| `TypesTemplateProps.SchemasConstants` | types_tmpl.go:79-127 | the artifact's constants are each schema's simple-type constants in turn (`SchemasConsts`) |
| `TypesTemplateProps.SchemaLayout` | types_tmpl.go:79-127 | one schema's output is balanced, and every comment is followed by a field or constant |
| `TypesTemplateProps.SchemasRender` | types_tmpl.go:79-127 | across the whole artifact, every comment is followed by a field or constant, and every struct that is opened is closed |
| `TypesTemplateProps.DocumentedTree` | types_tmpl.go:71-74 | a field or constant after its optional comment reads back as one declaration that carries exactly the comment its documentation renders to, or none when the documentation is empty |
| `TypesTemplateProps.AttributesTree` | types_tmpl.go:30-39 | read back whole, the attributes give one declaration per attribute, in order: its `AttributeMember` under its own comment (`AttributesOutline`) |
| `TypesTemplateProps.ElementsTree` | types_tmpl.go:63-77 | read back whole, a particle group gives one declaration per particle, in order (`ParticlesOutline`), each with its comment and, for an inline struct, its whole nested body |
| `TypesTemplateProps.ElementTree` | types_tmpl.go:64-76 | one particle reads back as one declaration (`ParticleOutline`). A ref member has no comment. A typed member has its own comment. An inline struct holds its body's declarations |
| `TypesTemplateProps.InlineTree` | types_tmpl.go:45-61 | an inline struct reads back as one declaration: opened on the particle's public name, holding `BodyOutline` of its own complex type (nothing without one), closed by `` } `xml:"Name,omitempty"` `` |
| `TypesTemplateProps.BodyTree` | types_tmpl.go:47-59 | read back whole, a struct body is `BodyOutline`: the same precedence as `BodyMembers`, with every comment and every nested body at every depth |
| `TypesTemplateProps.ComplexContentTree` | types_tmpl.go:20-28 | read back whole: the embedded base only when `toGoType(Base)` is non-empty, then the sequence's particles, then the attributes, each with its comment and nested body |
| `TypesTemplateProps.SimpleContentTree` | types_tmpl.go:41-43 | read back whole: the uncommented `Value toGoType(Base)` member, then each attribute under its own comment |
| `TypesTemplateProps.EnumerationTree` | types_tmpl.go:13-16 | read back whole, a const block's entries give one constant per entry, in order, each under its own comment (`EntriesOutline`) |
| `TypesTemplateProps.SimpleTypeTree` | types_tmpl.go:8-18 | read back whole: `type T goSimpleType(st)`, one `const (`, each entry's constant under its comment, one `)`; nothing else (`SimpleTypeOutline`) |
| `TypesTemplateProps.SimpleTypesTree` | types_tmpl.go:82-84 | the simple-type loop reads back as each simple type's outline in turn: its underlying type, its constants and their comments |
| `TypesTemplateProps.StructTree` | types_tmpl.go:91-125 | a top-level struct reads back as one declaration: its public name, then the `XMLName` member, then the whole body outline with comments and nested structs, then `}` (`StructOutline`) |
| `TypesTemplateProps.TopElementsTree` | types_tmpl.go:86-107 | the element loop reads back as one struct outline per untyped element that carries a complex type, in order, and nothing for the others |
| `TypesTemplateProps.ComplexTypesTree` | types_tmpl.go:109-126 | the complex-type loop reads back as one struct outline per complex type, in order |
| `TypesTemplateProps.SchemaTree` | types_tmpl.go:80-126 | one schema reads back as its simple types' outlines, then its anonymous elements' structs, then its complex types' structs, all in full (`SchemaOutline`) |
| `TypesTemplateProps.SchemasTree` | types_tmpl.go:79-127 | the whole artifact reads back as each schema's outline in turn, with every declaration's comment, underlying or member type, and complete nested body (`SchemasOutline`) |

## Left out

- The bodies of `makePublic`, `makeFieldPublic`, `replaceReservedWords`,
  `removeNS`, `toGoType`, `goSimpleType`, `goString` and `comment`. They are
  not part of this model and enter it only as the `Naming` parameter.
  Two results therefore cannot be proved here, because they depend on those
  bodies: the exact constant spelling `DriveTrainFrontWheelDrive`
  (gowsdl_test.go:104-105) and the list rendering `[]int32`
  (gowsdl_test.go:126).
- Whitespace. Go `text/template` indentation, blank lines and trailing spaces
  are not modelled; each `Line` is one logical line of output (a comment
  may span several physical lines). In
  particular, the blank lines the template leaves between a particle's or an
  attribute's comment and its member (types_tmpl.go:32-34, 71-74) are
  dropped, so "followed by" and "above" mean "on the next non-blank line". Checking that the
  output is valid Go is the formatter's job (gowsdl_test.go:59) and is not
  modelled.
- The simple type's list facet, pattern and other restriction details. The
  template itself never reads them; only `goSimpleType` does. The model's
  simple-type node is reduced to a name and its restriction (base type and
  enumeration facets), so the model's
  `goSimpleType` cannot see a list facet the real helper reads
  (gowsdl_test.go:123-126).
- The generation driver: WSDL/XSD parsing, import/include merging and its
  idempotence, and fixture loading. These are I/O and are not part of this
  model.
- The header, operations and soap templates, including the `SetHeader`
  entry point (gowsdl_test.go:77). They are not part of this model.
- Error reporting. The template has no failure path of its own; unresolved
  names and unsupported constructs would surface inside the helpers.
- RenderElements: its own ensures states only that it emits struct-body
  lines. `ElementsRender` states its members, and `ElementsTree` states its
  whole text, comments and nested bodies included.
- RenderComplexTypeInline: its own ensures states only that it emits
  struct-body lines. `InlineRender` and `InlineTree` state the rest.
- RenderBody: its own ensures states only that it emits struct-body lines.
  `BodyRender` and `BodyTree` state the rest.
- RenderComplexContent: its own ensures states only that it emits
  struct-body lines. `ComplexContentRender` and `ComplexContentTree` state
  the rest.
- RenderSimpleContent: its own ensures states only that it emits
  struct-body lines. `SimpleContentRender` and `SimpleContentTree` state the
  rest.
- RenderStruct: its own ensures states only its first, second and last
  lines and the kinds of line between them. `StructContents` and `StructTree` state the rest.
- RenderSimpleTypes: its own ensures states only a lower bound on its
  length and the kinds of line it emits. `SimpleTypesConstants` and `SimpleTypesTree` state the rest.
- RenderTopElements: its own ensures states only the kinds of line it
  emits. `TopElementsContents` and `TopElementsTree` state the rest.
- RenderComplexTypes: its own ensures states only the kinds of line it
  emits. `ComplexTypesContents` and `ComplexTypesTree` state the rest.
- RenderSchema: its own ensures states only a lower bound on its length.
  `SchemaDecls`, `SchemaConstants` and `SchemaTree` state the rest.
- RenderSchemas: its own ensures states only a lower bound on its length.
  `SchemasDecls`, `SchemasConstants` and `SchemasTree` state the rest.
- `TypesTemplateProps.ConstantNamesDistinct` assumes the value-naming
  composition `makePublic ∘ replaceReservedWords` is injective. The real
  helpers need not be, for example when two values differ only in spaces or
  case, so the template by itself guarantees no more than this.
