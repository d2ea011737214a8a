/** The typed views over a token: packages, modules, module members, class
    members and types. Each kind is the same flat string; a constructor
    appends ":" and a leaf name to a parent address, and the accessors cut
    the string at the n-th delimiter to recover the parent and the leaf.
    An accessor that needs a delimiter depth requires it, as the fail-fast
    assertions of tokens.go do. */
module Addresses {
  import opened Tokens
  import opened Names

  type Package = Token
  type Module = Token
  type ModuleMember = Token
  type ClassMember = Token
  type Type = Token

  /** A variable is a simple name, a module member or a class member; a
      function is a module member or a class member. Both only relabel the
      token grammar. */
  type Variable = Token
  type Function = Token

  /** `part` is a proper prefix of `whole` and is followed there by a
      delimiter. */
  predicate EndsAtDelimiter(part: Token, whole: Token) {
    part < whole && whole[|part|] == TokenDelimiter
  }

  /** The part of `tok` before its n-th delimiter, and the part after it. */
  lemma {:induction false} CutAt(tok: Token, n: int)
    requires 1 <= n <= Delimiters(tok)
    ensures var i := Delimiter(tok, n);
      && EndsAtDelimiter(tok[..i], tok)
      && Delimiters(tok[..i]) == n - 1
      && tok == tok[..i] + [TokenDelimiter] + tok[i + 1..]
      && Delimiters(tok[i + 1..]) == Delimiters(tok) - n
  {
    SplitAt(tok, Delimiter(tok, n));
  }

  // ---------------------------------------------------------------- Token

  /** Token.Name: a simple token that is a legal name, as a name. */
  function TokenName(v: Validators, tok: Token): (r: string)
    requires Simple(tok) && v.isName(tok)
    ensures r == tok && TokenDelimiter !in r
  {
    NoDelimiters(tok);
    tok
  }

  /** Token.Package: empty for a decorated or primitive type, otherwise the
      text before the first delimiter. The final fallback of tokens.go (the whole
      token when it has no delimiter) is unreachable: a token that is neither
      decorated nor primitive always has a module part. */
  function TokenPackage(v: Validators, tok: Token): (r: Package)
    ensures Decorated(v, tok) || Primitive(v, tok) ==> r == []
    ensures !Decorated(v, tok) && !Primitive(v, tok) ==>
      HasModule(tok) && Simple(r) && EndsAtDelimiter(r, tok)
  {
    if Decorated(v, tok) || Primitive(v, tok) then []
    else if HasModule(tok) then
      CutAt(tok, 1);
      tok[..Delimiter(tok, 1)]
    else tok
  }

  /** Token.Module: the text before the second delimiter when there are at
      least two, the whole token when there is exactly one, else empty. */
  function TokenModule(tok: Token): (r: Module)
    ensures Delimiters(tok) >= 2 ==> Delimiters(r) == 1 && EndsAtDelimiter(r, tok)
    ensures Delimiters(tok) == 1 ==> r == tok
    ensures Delimiters(tok) == 0 ==> r == []
  {
    if HasModule(tok) then
      if HasModuleMember(tok) then
        CutAt(tok, 2);
        tok[..Delimiter(tok, 2)]
      else tok
    else []
  }

  /** Token.ModuleMember: the text before the third delimiter when there are
      at least three, the whole token when there are exactly two, else empty. */
  function TokenModuleMember(tok: Token): (r: ModuleMember)
    ensures Delimiters(tok) >= 3 ==> Delimiters(r) == 2 && EndsAtDelimiter(r, tok)
    ensures Delimiters(tok) == 2 ==> r == tok
    ensures Delimiters(tok) < 2 ==> r == []
  {
    if HasModuleMember(tok) then
      if HasClassMember(tok) then
        CutAt(tok, 3);
        tok[..Delimiter(tok, 3)]
      else tok
    else []
  }

  /** Token.ClassMember: the whole token exactly when it has three or more
      delimiters, else empty. */
  function TokenClassMember(tok: Token): (r: ClassMember)
    ensures Delimiters(tok) >= 3 ==> r == tok
    ensures Delimiters(tok) < 3 ==> r == []
  {
    if HasClassMember(tok) then tok else []
  }

  // -------------------------------------------------------------- Package

  /** NewPackageToken: a legal package name is a package token, and (under
      the names-carry-no-delimiter assumption) a simple one. */
  function NewPackageToken(v: Validators, nm: string): (r: Package)
    requires v.isPackageName(nm)
    ensures r == nm
    ensures NamesAreUndelimited(v) ==> Simple(r)
  {
    NoDelimiters(nm);
    nm
  }

  // --------------------------------------------------------------- Module

  /** NewModuleToken: `pkg:nm`, after checking that nm is a qualified name. */
  function NewModuleToken(v: Validators, pkg: Package, nm: string): (r: Module)
    requires v.isQName(nm)
    ensures Delimiters(r) == Delimiters(pkg) + 1 + Delimiters(nm)
  {
    DelimitersJoin(pkg, nm);
    pkg + [TokenDelimiter] + nm
  }

  /** Module.Package: the delimiter-free text before the first delimiter. */
  function ModulePackage(tok: Module): (r: Package)
    requires HasModule(tok)
    ensures Simple(r) && EndsAtDelimiter(r, tok)
  {
    CutAt(tok, 1);
    tok[..Delimiter(tok, 1)]
  }

  /** Module.Name: everything after the first delimiter, so that the module
      token is its package, a delimiter and its name. */
  function ModuleName(tok: Module): (r: string)
    requires HasModule(tok)
    ensures tok == ModulePackage(tok) + [TokenDelimiter] + r
    ensures Delimiters(r) == Delimiters(tok) - 1
  {
    CutAt(tok, 1);
    tok[Delimiter(tok, 1) + 1..]
  }

  /** Constructing a module and decomposing it gives back its inputs. */
  lemma {:induction false} ModuleRoundTrip(v: Validators, pkg: Package, nm: string)
    requires NamesAreUndelimited(v) && Simple(pkg) && v.isQName(nm)
    ensures var m := NewModuleToken(v, pkg, nm);
      && Delimiters(m) == 1
      && ModulePackage(m) == pkg
      && ModuleName(m) == nm
  {
    AppendLeaf(pkg, nm);
  }

  // --------------------------------------------------------- ModuleMember

  /** NewModuleMemberToken: `mod:nm`, after checking that nm is a name. */
  function NewModuleMemberToken(v: Validators, mod: Module, nm: string): (r: ModuleMember)
    requires v.isName(nm)
    ensures Delimiters(r) == Delimiters(mod) + 1 + Delimiters(nm)
  {
    DelimitersJoin(mod, nm);
    mod + [TokenDelimiter] + nm
  }

  /** ModuleMember.Module: the text before the second delimiter, holding
      exactly one delimiter. */
  function ModuleMemberModule(tok: ModuleMember): (r: Module)
    requires HasModuleMember(tok)
    ensures Delimiters(r) == 1 && EndsAtDelimiter(r, tok)
  {
    CutAt(tok, 2);
    tok[..Delimiter(tok, 2)]
  }

  /** ModuleMember.Package: the package of its module, which is the
      delimiter-free text before the token's first delimiter. */
  function ModuleMemberPackage(tok: ModuleMember): (r: Package)
    requires HasModuleMember(tok)
    ensures Simple(r) && EndsAtDelimiter(r, tok)
  {
    ModulePackage(ModuleMemberModule(tok))
  }

  /** ModuleMember.Name: everything after the second delimiter (a class
      member part, if any, included). */
  function ModuleMemberName(tok: ModuleMember): (r: string)
    requires HasModuleMember(tok)
    ensures tok == ModuleMemberModule(tok) + [TokenDelimiter] + r
    ensures Delimiters(r) == Delimiters(tok) - 2
  {
    CutAt(tok, 2);
    tok[Delimiter(tok, 2) + 1..]
  }

  /** Constructing a module member and decomposing it gives back its inputs. */
  lemma {:induction false} ModuleMemberRoundTrip(v: Validators, mod: Module, nm: string)
    requires NamesAreUndelimited(v) && Delimiters(mod) == 1 && v.isName(nm)
    ensures var mm := NewModuleMemberToken(v, mod, nm);
      && Delimiters(mm) == 2
      && ModuleMemberModule(mm) == mod
      && ModuleMemberName(mm) == nm
      && ModuleMemberPackage(mm) == ModulePackage(mod)
  {
    AppendLeaf(mod, nm);
  }

  // ---------------------------------------------------------- ClassMember

  /** NewClassMemberToken: `cls:nm`, after checking that nm is a name. */
  function NewClassMemberToken(v: Validators, cls: Type, nm: string): (r: ClassMember)
    requires v.isName(nm)
    ensures Delimiters(r) == Delimiters(cls) + 1 + Delimiters(nm)
  {
    DelimitersJoin(cls, nm);
    cls + [TokenDelimiter] + nm
  }

  /** ClassMember.Class: the text before the third delimiter, holding
      exactly two delimiters. */
  function ClassMemberClass(tok: ClassMember): (r: Type)
    requires HasClassMember(tok)
    ensures Delimiters(r) == 2 && EndsAtDelimiter(r, tok)
  {
    CutAt(tok, 3);
    tok[..Delimiter(tok, 3)]
  }

  /** ClassMember.Name: everything after the third delimiter. */
  function ClassMemberName(tok: ClassMember): (r: string)
    requires HasClassMember(tok)
    ensures tok == ClassMemberClass(tok) + [TokenDelimiter] + r
    ensures Delimiters(r) == Delimiters(tok) - 3
  {
    CutAt(tok, 3);
    tok[Delimiter(tok, 3) + 1..]
  }

  /** ClassMember.Module: the module of its class viewed as a type; empty when
      the class is a decorated type. */
  function ClassMemberModule(v: Validators, tok: ClassMember): (r: Module)
    requires HasClassMember(tok)
    ensures Decorated(v, ClassMemberClass(tok)) ==> r == []
    ensures !Decorated(v, ClassMemberClass(tok)) ==> Delimiters(r) == 1 && EndsAtDelimiter(r, tok)
  {
    TypeModule(v, ClassMemberClass(tok))
  }

  /** ClassMember.Package: the package of its module. The Go code fails its
      assertion when the class is decorated (its module is then empty), so
      that case is excluded. */
  function ClassMemberPackage(v: Validators, tok: ClassMember): (r: Package)
    requires HasClassMember(tok)
    requires !Decorated(v, ClassMemberClass(tok))
    ensures Simple(r) && EndsAtDelimiter(r, tok)
  {
    ModulePackage(ClassMemberModule(v, tok))
  }

  /** Constructing a class member and decomposing it gives back its inputs,
      and its module and package are those of its class. */
  lemma {:induction false} ClassMemberRoundTrip(v: Validators, cls: Type, nm: string)
    requires NamesAreUndelimited(v) && Delimiters(cls) == 2 && v.isName(nm)
    ensures var cm := NewClassMemberToken(v, cls, nm);
      && Delimiters(cm) == 3
      && ClassMemberClass(cm) == cls
      && ClassMemberName(cm) == nm
      && ClassMemberModule(v, cm) == TypeModule(v, cls)
      && (!Decorated(v, cls) ==>
            && ClassMemberModule(v, cm) == ModuleMemberModule(cls)
            && ClassMemberPackage(v, cm) == ModuleMemberPackage(cls))
  {
    AppendLeaf(cls, nm);
  }

  // ----------------------------------------------------------------- Type

  /** Type.Decorated: a pointer, array, map or function type, as the
      externally defined recognisers decide. */
  predicate Decorated(v: Validators, tok: Type) {
    v.isPointerType(tok) || v.isArrayType(tok) || v.isMapType(tok) || v.isFunctionType(tok)
  }

  /** Type.Primitive: neither decorated nor module-qualified. A type is
      primitive exactly when it is not decorated and carries no delimiter. */
  function Primitive(v: Validators, tok: Type): (b: bool)
    ensures b <==> !Decorated(v, tok) && TokenDelimiter !in tok
  {
    NoDelimiters(tok);
    !Decorated(v, tok) && !HasModule(tok)
  }

  /** NewTypeToken: `mod:nm`, after checking that nm is a name. */
  function NewTypeToken(v: Validators, mod: Module, nm: string): (r: Type)
    requires v.isName(nm)
    ensures Delimiters(r) == Delimiters(mod) + 1 + Delimiters(nm)
  {
    DelimitersJoin(mod, nm);
    mod + [TokenDelimiter] + nm
  }

  /** Type.Package: empty for a built-in type, otherwise the package of the
      type viewed as a module member. That view asserts a module-member
      delimiter, so a non-built-in type with a single delimiter is excluded. */
  function TypePackage(v: Validators, tok: Type): (r: Package)
    requires Primitive(v, tok) || Decorated(v, tok) || HasModuleMember(tok)
    ensures Primitive(v, tok) || Decorated(v, tok) ==> r == []
    ensures !Primitive(v, tok) && !Decorated(v, tok) ==> Simple(r) && EndsAtDelimiter(r, tok)
  {
    if Primitive(v, tok) || Decorated(v, tok) then [] else ModuleMemberPackage(tok)
  }

  /** Type.Module: empty for a built-in type, otherwise the module of the
      type viewed as a module member. */
  function TypeModule(v: Validators, tok: Type): (r: Module)
    requires Primitive(v, tok) || Decorated(v, tok) || HasModuleMember(tok)
    ensures Primitive(v, tok) || Decorated(v, tok) ==> r == []
    ensures !Primitive(v, tok) && !Decorated(v, tok) ==> Delimiters(r) == 1 && EndsAtDelimiter(r, tok)
  {
    if Primitive(v, tok) || Decorated(v, tok) then [] else ModuleMemberModule(tok)
  }

  /** Type.Name: the whole token for a built-in type, otherwise what follows
      the type's module and its delimiter. */
  function TypeName(v: Validators, tok: Type): (r: string)
    requires Primitive(v, tok) || Decorated(v, tok) || HasModuleMember(tok)
    ensures Primitive(v, tok) || Decorated(v, tok) ==> r == tok
    ensures !Primitive(v, tok) && !Decorated(v, tok) ==> tok == TypeModule(v, tok) + [TokenDelimiter] + r
  {
    if Primitive(v, tok) || Decorated(v, tok) then tok else ModuleMemberName(tok)
  }

  /** A type token is built like a module member token, and unless the
      recognisers call it decorated it decomposes back into its inputs. */
  lemma {:induction false} TypeRoundTrip(v: Validators, mod: Module, nm: string)
    requires NamesAreUndelimited(v) && Delimiters(mod) == 1 && v.isName(nm)
    requires !Decorated(v, NewTypeToken(v, mod, nm))
    ensures var t := NewTypeToken(v, mod, nm);
      && t == NewModuleMemberToken(v, mod, nm)
      && !Primitive(v, t)
      && TypeModule(v, t) == mod
      && TypeName(v, t) == nm
      && TypePackage(v, t) == ModulePackage(mod)
  {
    AppendLeaf(mod, nm);
  }

  // ---------------------------------------------------------- Projections

  /** On a class-member-deep token that is not decorated, the generic
      projections agree with the typed decompositions and nest as prefixes:
      package, then module, then module member, then the whole token. */
  lemma {:induction false} ProjectionsAgree(v: Validators, tok: Token)
    requires HasClassMember(tok) && !Decorated(v, tok)
    ensures TokenClassMember(tok) == tok
    ensures TokenModuleMember(tok) == ClassMemberClass(tok)
    ensures TokenModule(tok) == ModuleMemberModule(TokenModuleMember(tok))
    ensures TokenPackage(v, tok) == ModulePackage(TokenModule(tok))
    ensures TokenPackage(v, tok) < TokenModule(tok) < TokenModuleMember(tok) < tok
  {
    var c := ClassMemberClass(tok);
    DelimiterInPrefix(tok, |c|, 2);
    var m := TokenModule(tok);
    DelimiterInPrefix(tok, |m|, 1);
  }
}
