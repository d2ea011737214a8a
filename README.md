# Qualified tokens (`pkg/tokens`)

This project models the qualified-token addressing scheme of `pkg/tokens/tokens.go`. A
token is one immutable string. The `:` delimiter splits it into up to four parts,
`package[:module[:moduleMember[:classMember]]]`. Typed views sit over the same string:
package, module, module member, class member and type. Each view has constructors that
append `":" + name` to a parent address. Each also has accessors that recover the parent
and the leaf by cutting the string at the n-th delimiter. The navigation primitive under
every accessor is `delimiter(n)`, a loop that finds the n-th `:`. The file ends with
`ByName`, the adaptor that sorts a slice of tokens in string order.

Layout:

- `names.dfy`, module `Names`: the recognisers this file calls but does not define.
  These are `IsName`, `IsQName`, `IsPackageName` and the four decorated-type
  recognisers. They appear as function-valued fields of a `Validators` record that
  operations take as a parameter. `NamesAreUndelimited` states the one assumption made
  about them: simple, qualified and package names contain no `:`. This assumption comes
  from the grammar comment in `tokens.go`. Only the round-trip lemmas need it, and each
  one requires it explicitly.
- `tokens.dfy`, module `Tokens`:
  - the delimiter count and the depth predicates built on it (`HasModule`,
    `HasModuleMember`, `HasClassMember`, `Simple`);
  - `NthDelimiter`, the specification of "the n-th delimiter";
  - `Delimiter`, a function giving exactly what `delimiter(n)` answers;
  - `FindDelimiter`, the loop itself as a method proved equal to `Delimiter`.
- `addresses.dfy`, module `Addresses`: the typed views. Each Go method `K.M` becomes a
  function named `KM`, for example `Module.Package` becomes `ModulePackage`. Every view
  is a `string` type synonym, as in Go, where each kind is a named string type.
  `contract.Assertf` and `contract.Requiref` become `requires` clauses.
- `ordering.dfy`, module `Ordering`:
  - `StringLess`, Go's `<` on strings, with its order properties;
  - a `ByName` class over an `array<Token>`, the slice that `Swap` updates in place.

Where the documentation and the code differ, the model follows the code:

- `delimiter(n)` does not always give -1 when the token has fewer than n delimiters. It
  gives the index of the last delimiter found. It gives -1 only when that delimiter is
  the last character, or when there is no delimiter at all (`tokens.go:61-70`;
  `Tokens.DelimiterBeyondCount` shows both cases). Every caller checks the depth first,
  so no accessor sees this.
- `ModuleMember.Name` returns everything after the second delimiter, including any
  class-member part. It does not stop at a third delimiter.
- The doc comments at `tokens.go:168` and `tokens.go:196` name `/` and `.` as
  delimiters. The code uses `:` everywhere.
- Primitive and decorated types exclude each other but do not cover every type. A type
  that is a module member is neither.

## Model

| member | source | states |
|---|---|---|
| `Tokens.Delimiters` | pkg/tokens/tokens.go:49 | the delimiter count never exceeds the token's length |
| `Tokens.HasModule` | pkg/tokens/tokens.go:50 | definition: at least one delimiter; its relation to the other depths is proved in `DepthsNest` |
| `Tokens.HasModuleMember` | pkg/tokens/tokens.go:51 | definition: at least two delimiters; `DepthsNest` proves it implies `HasModule` |
| `Tokens.HasClassMember` | pkg/tokens/tokens.go:52 | definition: at least three delimiters; `DepthsNest` proves it implies `HasModuleMember` |
| `Tokens.Simple` | pkg/tokens/tokens.go:53 | definition: no delimiter; `DepthsNest` proves it is the negation of `HasModule` and means no `:` occurs |
| `Tokens.DelimitersCountsColons` | pkg/tokens/tokens.go:49 | `Delimiters` equals the number of `:` characters (their multiplicity in the token's multiset) |
| `Tokens.NoDelimiters` | pkg/tokens/tokens.go:49-53 | the count is zero exactly when no character is `:` |
| `Tokens.DepthsNest` | pkg/tokens/tokens.go:50-53 | `Simple` holds iff `HasModule` fails, iff the token has no `:`; `HasClassMember` implies `HasModuleMember`, which implies `HasModule` |
| `Tokens.DelimitersAppend` | pkg/tokens/tokens.go:49 | the count of a concatenation is the sum of the counts |
| `Tokens.IndexOf` | pkg/tokens/tokens.go:67 | `strings.Index` for one character: -1 iff the character is absent, otherwise the index of its first occurrence |
| `Tokens.NthDelimiter` | pkg/tokens/tokens.go:56-76 | for 1 <= n <= count, an index holding `:` with exactly n-1 delimiters before it |
| `Tokens.NthDelimiterUnique` | pkg/tokens/tokens.go:56-76 | a `:` with n-1 delimiters before it is the n-th delimiter, and n is within the count |
| `Tokens.Delimiter` | pkg/tokens/tokens.go:57-76 | `delimiter(n)`: for 1 <= n <= count, the index of the n-th `:`; -1 for n <= 0 or no `:`; for n beyond a positive count, -1 iff the token ends in `:`, otherwise a `:` with none after it |
| `Tokens.FindDelimiter` | pkg/tokens/tokens.go:57-76 | the loop of `delimiter` returns exactly `Delimiter(tok, n)` on every input |
| `Tokens.DelimiterBeyondCount` | pkg/tokens/tokens.go:61-70 | on `a:b`, asking for the 2nd delimiter gives 1, the last one found; on `a:` it gives -1 |
| `Tokens.DelimitersJoin` | pkg/tokens/tokens.go:147-150 | joining a parent and a leaf with one `:` gives the parent's count plus one plus the leaf's |
| `Tokens.AppendLeaf` | pkg/tokens/tokens.go:149 | appending `:` and a name without `:` adds one delimiter, found right after the parent; cutting there gives back parent and name |
| `Addresses.TokenName` | pkg/tokens/tokens.go:79-83 | `Token.Name` requires a simple token that is a legal name, and returns that token, which has no `:` |
| `Addresses.TokenPackage` | pkg/tokens/tokens.go:86-94 | empty for decorated or primitive types; otherwise the token has a module part and the result is the text before the first `:` (the fallback branch is unreachable) |
| `Addresses.TokenModule` | pkg/tokens/tokens.go:97-105 | the prefix with one delimiter that ends at the 2nd `:` when there are at least two; the whole token when there is one; empty when there are none |
| `Addresses.TokenModuleMember` | pkg/tokens/tokens.go:108-116 | the prefix with two delimiters that ends at the 3rd `:` when there are at least three; the whole token when there are two; empty otherwise |
| `Addresses.TokenClassMember` | pkg/tokens/tokens.go:119-124 | the whole token when there are at least three delimiters, otherwise empty |
| `Addresses.ProjectionsAgree` | pkg/tokens/tokens.go:86-124 | on a non-decorated token with at least three delimiters, the generic projections equal the typed accessors' results and nest as strict prefixes: package, module, module member, whole token |
| `Addresses.NewPackageToken` | pkg/tokens/tokens.go:131-134 | requires a legal package name; under the names assumption the package token is simple |
| `Addresses.NewModuleToken` | pkg/tokens/tokens.go:147-150 | requires a qualified module name; the result has the package's delimiters, plus one, plus the name's |
| `Addresses.ModulePackage` | pkg/tokens/tokens.go:152-156 | requires a module delimiter; the result has no `:` and is the prefix that ends at the first `:` |
| `Addresses.ModuleName` | pkg/tokens/tokens.go:158-162 | requires a module delimiter; the token is `ModulePackage + ":" + result`, and the result has one delimiter fewer |
| `Addresses.ModuleRoundTrip` | pkg/tokens/tokens.go:147-162 | a module built from a simple package and a qualified name has one delimiter, and its package and name are the inputs |
| `Addresses.NewModuleMemberToken` | pkg/tokens/tokens.go:171-174 | requires a legal name; the result has the module's delimiters, plus one, plus the name's |
| `Addresses.ModuleMemberModule` | pkg/tokens/tokens.go:180-184 | requires a module-member delimiter; the result has exactly one `:` and is the prefix that ends at the second `:` |
| `Addresses.ModuleMemberPackage` | pkg/tokens/tokens.go:176-178 | requires a module-member delimiter; the result has no `:` and is the prefix that ends at the first `:` |
| `Addresses.ModuleMemberName` | pkg/tokens/tokens.go:186-190 | requires a module-member delimiter; the token is `ModuleMemberModule + ":" + result`, and the result has two delimiters fewer |
| `Addresses.ModuleMemberRoundTrip` | pkg/tokens/tokens.go:171-190 | a member built from a one-delimiter module and a name has two delimiters; its module and name are the inputs; its package is the module's package |
| `Addresses.NewClassMemberToken` | pkg/tokens/tokens.go:199-202 | requires a legal name; the result has the class's delimiters, plus one, plus the name's |
| `Addresses.ClassMemberClass` | pkg/tokens/tokens.go:212-216 | requires a class-member delimiter; the result has exactly two `:` and is the prefix that ends at the third `:` |
| `Addresses.ClassMemberName` | pkg/tokens/tokens.go:218-222 | requires a class-member delimiter; the token is `ClassMemberClass + ":" + result`, and the result has three delimiters fewer |
| `Addresses.ClassMemberModule` | pkg/tokens/tokens.go:208-210 | empty when the class is a decorated type; otherwise a prefix with one delimiter that ends at a `:` |
| `Addresses.ClassMemberPackage` | pkg/tokens/tokens.go:204-206 | requires a class-member delimiter and a non-decorated class (the assertion in `Module.Package` fails otherwise); the result has no `:` and is the prefix that ends at the first `:` |
| `Addresses.ClassMemberRoundTrip` | pkg/tokens/tokens.go:199-222 | a class member built from a two-delimiter class and a name has three delimiters; its class and name are the inputs; its module and package are the class's |
| `Addresses.Decorated` | pkg/tokens/tokens.go:261-268 | definition: a pointer, array, map or function type as the recognisers decide; `Primitive` proves the two kinds never overlap |
| `Addresses.Primitive` | pkg/tokens/tokens.go:261-273 | a type is primitive exactly when it is not decorated and contains no `:`, so primitive and decorated types never overlap |
| `Addresses.NewTypeToken` | pkg/tokens/tokens.go:230-233 | requires a legal name; the result has the module's delimiters, plus one, plus the name's |
| `Addresses.TypePackage` | pkg/tokens/tokens.go:235-240 | empty for primitive or decorated types; otherwise, and only with a module-member delimiter, the prefix with no `:` that ends at the first `:` |
| `Addresses.TypeModule` | pkg/tokens/tokens.go:242-247 | empty for primitive or decorated types; otherwise, and only with a module-member delimiter, the prefix with one delimiter that ends at a `:` |
| `Addresses.TypeName` | pkg/tokens/tokens.go:249-254 | the whole token for primitive or decorated types; otherwise what follows `TypeModule` and its `:` |
| `Addresses.TypeRoundTrip` | pkg/tokens/tokens.go:230-254 | `NewTypeToken` builds the same string as `NewModuleMemberToken`; unless the result is decorated it is not primitive, and its module, name and package are the inputs and the module's package |
| `Ordering.StringLess` | pkg/tokens/tokens.go:295 | definition of Go's string `<`, character by character; its order properties are the `StringLess*` lemmas |
| `Ordering.StringLessIsLexicographic` | pkg/tokens/tokens.go:295 | string `<` holds exactly when `a` is a proper prefix of `b`, or they first differ at a position where `a` is smaller |
| `Ordering.StringLessIrreflexive` | pkg/tokens/tokens.go:295 | no token is less than itself |
| `Ordering.StringLessTransitive` | pkg/tokens/tokens.go:295 | the order is transitive |
| `Ordering.StringLessAsymmetric` | pkg/tokens/tokens.go:295 | `a < b` excludes `b < a` |
| `Ordering.StringLessTotal` | pkg/tokens/tokens.go:295 | any two distinct tokens are ordered one way or the other |
| `Ordering.ByName.Less` | pkg/tokens/tokens.go:295 | true exactly when the i-th token precedes the j-th in string order; then they differ and the reverse is false |
| `Ordering.ByName.Swap` | pkg/tokens/tokens.go:296 | exchanges positions i and j in place, leaves every other position unchanged and keeps the multiset of tokens |

## Left out

- `IsName`, `IsQName`, `IsPackageName`, `IsPointerType`, `IsArrayType`, `IsMapType` and `IsFunctionType` are defined outside `tokens.go` and are not part of this model. They are opaque parameters. Only the no-`:` assumption is stated about them.
- Because the recognisers are opaque, the model says nothing about the shape of decorated types. It proves neither that exactly one decoration kind holds nor any recursive parse of a decorated type.
- `Type.Pointer`, `Type.Array`, `Type.Map` and `Type.Function` are the recognisers themselves, the fields of `Validators`.
- The `String()` methods, `Package.Name` and `Type.Member` are identity conversions between Go's named string types. In the model all of these are the same `string` value.
- `Variable` and `Function` have no operations besides `String()`. They appear only as type synonyms.
- `ByName.Len` is the array's `Length`.
- Sorting itself (`sort.Sort` driving `Len`, `Less` and `Swap`) is Go library code and is not part of this model.
- The fail-fast assertions are modelled as preconditions, not as run-time panics. Go's slice-bound panics are excluded the same way.
- Go strings are byte strings. A `char` here stands for one byte. Because `:` is ASCII, counts and indices agree with Go's.
- `sdk/nodejs/cmd/run/run.ts`, `sdk/nodejs/runtime/closure/v8_10.ts` and `pkg/backend/local/nonInteractiveDisplay.go` are process start-up, inspector and console-display code. They are all I/O or host-runtime effects and are not part of this model.
