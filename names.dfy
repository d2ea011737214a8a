/** The name grammars and type-shape recognisers that token constructors and
    type accessors consult. Their definitions live outside tokens.go and are
    not part of this model: they are carried as opaque total predicates in a
    record that every operation needing one takes as a parameter. */
module Names {

  /** The externally defined recognisers: IsName, IsQName, IsPackageName and
      the four decorated-type recognisers IsPointerType, IsArrayType,
      IsMapType and IsFunctionType. */
  datatype Validators = Validators(
    isName: string -> bool,
    isQName: string -> bool,
    isPackageName: string -> bool,
    isPointerType: string -> bool,
    isArrayType: string -> bool,
    isMapType: string -> bool,
    isFunctionType: string -> bool)

  /** ASSUMPTION about the recognisers this model does not define, taken from
      the grammar comment of tokens.go: simple names, qualified names and
      package names never contain the token delimiter ':'. Only the
      round-trip lemmas depend on it, and they require it explicitly. */
  ghost predicate NamesAreUndelimited(v: Validators) {
    && (forall s :: v.isName(s) ==> ':' !in s)
    && (forall s :: v.isQName(s) ==> ':' !in s)
    && (forall s :: v.isPackageName(s) ==> ':' !in s)
  }
}
