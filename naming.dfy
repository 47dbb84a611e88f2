/** The naming and type-resolution helpers the types template calls.

    Their definitions live outside the template and are not part of this
    model, so they are carried as a record of functions: every renderer takes
    one, and every property proved about the renderers holds for any choice of
    them. (The generator itself already lets its caller supply `makePublic`.) */
module GoNames {
  import opened Xsd

  datatype Naming = Naming(
    makePublic: string -> string,             // exported spelling of an identifier
    makeFieldPublic: string -> string,        // exported spelling of a field name
    replaceReservedWords: string -> string,   // renames Go keywords
    removeNS: string -> string,               // strips a namespace prefix
    toGoType: string -> string,               // resolves a qualified type name
    goSimpleType: Option<SimpleType> -> string, // resolves a simple type node (nil allowed)
    goString: string -> string,               // escapes a string literal body
    comment: string -> string)                // renders documentation as a comment
}
