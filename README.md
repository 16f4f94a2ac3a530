# uaiso: AST node core and token generator, modelled in Dafny

This project models two parts of the uaiso code-analysis library.

**The root of the AST hierarchy** (`Ast/AstBase.h`) is modelled in the
modules `AstKinds` and `AstNode`.

- The `Ast::Kind` enumeration is laid out abstractly. `Invalid` comes first.
  Each of the six categories (Name, Spec, Attr, Decl, Expr, Stmt) follows as
  a block: a `First…Marker__`, the category's members in declaration order,
  then a `Last…Marker__`. `Program`, `Generator` and `Filter` come last. A
  kind's value is its position in that sequence.
- The category tests `isName()` … `isStmt()` are modelled through
  `checkKind`. `kindStr` looks its value up in the enumeration.
- The node's packed header (`kind`, `variety` and `alloc` bit fields in one
  32-bit word) is modelled with explicit arithmetic.
- The setters that the `NAMED_AST_PARAM`, `NAMED_AST_LIST_PARAM` and
  `NAMED_LOC_PARAM` macros generate are modelled on one node class. It has
  one slot of each kind: a child node, a list and a source location. The
  `__BASE__` variants are virtual setters that do nothing and return null.

The main results:

- A kind passes `checkKind` for a category exactly when its enumerator is
  declared in that category.
- No kind belongs to two categories.
- Markers, `Invalid`, `Program`, `Generator` and `Filter` belong to none.
- `kindStr` names exactly the declared member kinds.

**The token generator** (`Scripts/GenTokens.py`, Python 2) is modelled in the
modules `PyStr`, `TokenMap`, `TokenWriters` and `GenTokens`.

- `PyStr` gives the string built-ins, with ASCII semantics: `strip`,
  `split(' ')`, `startswith`, `isdigit`, `int`, `str`, `find` and the
  ordering of `str`.
- `TokenMap` states what `build_token_map` computes, as a function `Step` of
  one line and its fold `Build` over all lines, together with its error cases.
- `TokenWriters` gives the text the three writers produce and the splice
  between the two marker comments.
- `GenTokens` holds the module's three globals as the fields of a class
  `TokenGenerator`. Its methods keep the loops of the Python functions. Each
  method is proved equal to the functions of `TokenMap` and `TokenWriters`.
- The lines of `Parsing/Tokens.def`, the text of the grammar file and the
  file header from `GenLib.cpp_file_header()` are parameters. The written
  files are results.

## Model

| member | source | states |
|---|---|---|
| AstKinds.EnumeratorValues | Ast/AstBase.h:50-78 | `Invalid` is 0. Each category's first marker comes before its last marker, and both come before `Program`. `Program`, `Generator` and `Filter` are the last three values. |
| AstKinds.Enumeration | Ast/AstBase.h:50-78 | `Ast::Kind` as declared: `Invalid`, the six marker-bracketed blocks in category order, then `Program`, `Generator`, `Filter`; an enumerator's value is its index. Its shape is stated by `EnumeratorValues` and `BlockInEnumeration`. |
| AstKinds.BlockInEnumeration | Ast/AstBase.h:55-72 | The j-th enumerator of a category's block (marker, members, marker) has the value of the first marker plus j. |
| AstKinds.CategoryOfKind | Ast/AstBase.h:179-183 | `checkKind(FirstXMarker__, LastXMarker__)` holds for a kind if and only if the enumerator with that value is a member of category X. |
| AstKinds.CheckKind | Ast/AstBase.h:179-183 | `checkKind`: the kind is strictly greater than the first marker and strictly less than the last. Its meaning is stated by `CategoryOfKind` and `NonMembersInNoCategory`. |
| AstKinds.InCategory | Ast/AstBase.h:134-162 | `isX()` on a kind value: `checkKind` with category X's two marker values. `CategoryOfKind` proves it equal to the block lookup, `CategoriesExclusive` that no kind passes two categories. |
| AstKinds.CategoriesExclusive | Ast/AstBase.h:134-162 | No kind passes the test of two different categories. |
| AstKinds.NonMembersInNoCategory | Ast/AstBase.h:179-183 | `Invalid`, every marker, `Program`, `Generator` and `Filter` pass no category test, because the bounds are strict. |
| AstKinds.KindStrNames | Ast/AstBase.h:113-132 | `kindStr` is non-empty exactly for a member of some category. For such a kind it is the name of the member at that offset in the category's list. Every other value gives the empty string. |
| AstKinds.KindStr | Ast/AstBase.h:113-132 | `kindStr`: the name of the member enumerator with that value, and "" from the `default` branch for every other value. `KindStrNames` states which values get a name and which name. |
| AstKinds.Ordinal | Ast/AstBase.h:50-78 | Each category has one position among the six blocks, in the order Name, Spec, Attr, Decl, Expr, Stmt. |
| AstNode.VarietyField | Ast/AstBase.h:169 | `bit_.variety`: the 4 bits above the kind, so a value below 16. `WithKindField` proves a kind store leaves it unchanged. |
| AstNode.AllocField | Ast/AstBase.h:170 | `bit_.alloc`: the 2 bits above the variety, so a value below 4. `WithKindField` proves a kind store leaves it unchanged. |
| AstNode.WithKindField | Ast/AstBase.h:166-176 | Writing the 16-bit `kind` field leaves the other bits of the word alone. The field then reads back as the value written, and `variety`, `alloc` and the higher bits are unchanged. |
| AstNode.Ast.Default | Ast/AstBase.h:85-86 | The default constructor zeroes the word: kind `Invalid`, variety 0, alloc 0. The child and list slots are empty. |
| AstNode.Ast.constructor | Ast/AstBase.h:92-95 | The word is zeroed, then the kind is stored. `kind()` returns the given kind, variety and alloc are 0, and the child and list slots are empty. |
| AstNode.Ast.Kind | Ast/AstBase.h:105 | `kind()`: the low 16 bits of the word. The constructors' contracts state that it returns the kind stored, and `WithKindField` that a store reads back. |
| AstNode.Ast.IsName | Ast/AstBase.h:134-137 | `isName()` holds if and only if the node's kind is declared among the Name kinds. |
| AstNode.Ast.IsSpec | Ast/AstBase.h:139-142 | `isSpec()` holds if and only if the node's kind is declared among the Spec kinds. |
| AstNode.Ast.IsAttr | Ast/AstBase.h:144-147 | `isAttr()` holds if and only if the node's kind is declared among the Attr kinds. |
| AstNode.Ast.IsDecl | Ast/AstBase.h:149-152 | `isDecl()` holds if and only if the node's kind is declared among the Decl kinds. |
| AstNode.Ast.IsExpr | Ast/AstBase.h:154-157 | `isExpr()` holds if and only if the node's kind is declared among the Expr kinds. |
| AstNode.Ast.IsStmt | Ast/AstBase.h:159-162 | `isStmt()` holds if and only if the node's kind is declared among the Stmt kinds. |
| AstNode.Ast.SetChild | Ast/AstBase.h:235-245 | `setNAME` replaces the child slot with the parameter and returns `this`. Nothing else in the node changes. |
| AstNode.Ast.AddItem | Ast/AstBase.h:258-265 | `addNAME` appends to the list when there is one. Otherwise it creates a one-element list. It returns `this`, and nothing else changes. |
| AstNode.Ast.MergeItems | Ast/AstBase.h:266-272 | `mergeNAMEs` takes the argument, null or not, as the list when there is none, and appends a non-null argument to an existing list. It returns `this`, and nothing else changes. |
| AstNode.Ast.SetItems | Ast/AstBase.h:273-277 | `setNAMEs` replaces the list slot with the parameter and returns `this`. Nothing else changes. |
| AstNode.Ast.SetLoc | Ast/AstBase.h:314-319 | `setNAMELoc` replaces the location and returns `this`. Nothing else changes. |
| AstNode.Ast.BaseSetChild | Ast/AstBase.h:248-249 | The base-class virtual setter returns null and changes nothing. |
| AstNode.Ast.BaseSetItems | Ast/AstBase.h:292-295 | The base-class virtual list setters return null and change nothing. |
| AstNode.Ast.BaseSetLoc | Ast/AstBase.h:322-323 | The base-class virtual location setter returns null and changes nothing. |
| PyStr.Strip | Scripts/GenTokens.py:188 | `strip()` leaves neither a leading nor a trailing whitespace character. |
| PyStr.StripSlice | Scripts/GenTokens.py:188 | The stripped line is a slice of the line, and only whitespace was cut from either end. |
| PyStr.Split | Scripts/GenTokens.py:191 | `split(' ')` gives at least one field, and no field contains a space. |
| PyStr.JoinSplit | Scripts/GenTokens.py:191 | Joining the fields of `split(' ')` with single spaces gives back the line. Empty fields are kept. |
| PyStr.SplitJoin | Scripts/GenTokens.py:191 | Splitting a space-join of space-free fields gives back exactly those fields. |
| PyStr.StartsWith | Scripts/GenTokens.py:190 | `startswith`: the text is at least as long as the prefix and begins with it. It decides which lines `TokenMap.TokenFields` keeps. |
| PyStr.IsDigits | Scripts/GenTokens.py:207 | `isdigit()`: at least one character, all of them ASCII digits. `NatToString` proves every `str(n)` passes it. |
| PyStr.DigitsValue | Scripts/GenTokens.py:45 | `int()` of a digit string, leading zeros allowed. `NatToString` proves it reads `str(n)` back as n. |
| PyStr.NatToString | Scripts/GenTokens.py:219 | `str(n)` is a digit string with no leading zero (unless it is "0"), and `int()` of it is n. |
| PyStr.Find | Scripts/GenTokens.py:72-77 | `find` returns -1 exactly when the pattern does not occur. Otherwise it returns the lowest index where the pattern occurs. |
| PyStr.StrLess | Scripts/GenTokens.py:224 | Python 2's `<` on `str`: lexicographic by character, a proper prefix first. `StrLessIrreflexive`, `StrLessTransitive` and `StrLessTotal` make it the strict total order `sorted` needs. |
| PyStr.StrLessIrreflexive | Scripts/GenTokens.py:224 | No string sorts before itself. |
| PyStr.StrLessTransitive | Scripts/GenTokens.py:224 | The ordering of `str` used by `sorted` is transitive. |
| PyStr.StrLessTotal | Scripts/GenTokens.py:224 | Of two different strings, one sorts before the other. |
| TokenMap.TokenFields | Scripts/GenTokens.py:188-191 | The loop's view of a line: after `strip()`, a line starting with `TOKEN` gives the fields of `split(' ')` after the first; any other line gives none. `PyStr.StripSlice`, `JoinSplit` and `SplitJoin` pin down the fields. |
| TokenMap.Step | Scripts/GenTokens.py:190-220 | A non-TOKEN line changes nothing. A line that succeeds has 2 or 3 fields and a new kind. It adds exactly that kind and changes no earlier entry. It advances the counter only for a regular line, and it keeps numbers numeric and aliases in the map. A duplicate-kind error names a kind already present. |
| TokenMap.Build | Scripts/GenTokens.py:187-220 | The loop over all lines: `Step` on each in turn, stopping at the first line that raises with the table as it was before that line. `BuildAppend`, `BuildExtends`, `BuildCounter`, `BuildKeys` and the per-line lemmas state what it computes; `TokenGenerator.BuildTokenMap` is proved equal to it. |
| TokenMap.BuildAppend | Scripts/GenTokens.py:187-220 | Reading `a + b` is reading `a`, then, unless `a` raised, reading `b` from the resulting table. |
| TokenMap.BuildExtends | Scripts/GenTokens.py:187-220 | No line ever overwrites an entry or drops an alias, including the lines before one that raises. |
| TokenMap.BuildConsistent | Scripts/GenTokens.py:207-213 | After any run, every number is a digit string and every alias is a kind of the map, so the asserted `isdigit()` of an alias's number holds. |
| TokenMap.BuildCounter | Scripts/GenTokens.py:181-220 | After a run that does not raise, the counter has advanced by exactly the number of regular lines. |
| TokenMap.BuildKeys | Scripts/GenTokens.py:187-220 | After a run that does not raise, the map's kinds are the earlier kinds plus those of the TOKEN lines. |
| TokenMap.LineStep | Scripts/GenTokens.py:187-220 | In a run that does not raise, each line succeeds on the table the earlier lines built. The run continues from the result, and what the line added survives to the end. |
| TokenMap.RegularNumbering | Scripts/GenTokens.py:216-220 | A token without DATA is numbered `str(259 + k)`, where k is the number of regular lines before it, and keeps its spelling. |
| TokenMap.ExplicitNumber | Scripts/GenTokens.py:200-215 | A token whose DATA is a digit string takes that string as its number. |
| TokenMap.AliasResolved | Scripts/GenTokens.py:207-215 | An alias names a kind from an earlier line. It is recorded in the alias set and shares that token's number. |
| TokenMap.FieldCounts | Scripts/GenTokens.py:193-218 | A run that does not raise saw only TOKEN lines with two or three fields. |
| TokenMap.DistinctKinds | Scripts/GenTokens.py:193-196 | In a run that does not raise, no two TOKEN lines declare the same kind, and no line redeclares an earlier kind. |
| TokenMap.AliasesOnlyNew | Scripts/GenTokens.py:207-215 | A kind already in the map that is not an alias never becomes one later. |
| TokenMap.RegularNotAlias | Scripts/GenTokens.py:216-220 | A token without DATA is never in the alias set at the end of the run. |
| TokenMap.ListingUnique | Scripts/GenTokens.py:224 | A map has only one listing of its items that is strictly sorted by kind. |
| TokenWriters.Declared | Scripts/GenTokens.py:43-53 | The filter of the loop: `int(number) >= 258`, and not an alias with a non-empty spelling. `KeptExactly` and `RegularTokensDeclared` state which tokens pass. |
| TokenWriters.DeclLine | Scripts/GenTokens.py:50-56 | `%token KIND NUM SPELLING`, or `%token KIND NUM` when the spelling is empty. |
| TokenWriters.Kept | Scripts/GenTokens.py:41-57 | The tokens of the list that pass the filter, in list order. `KeptExactly` states its elements and `KeptSorted` its order. |
| TokenWriters.BisonDecls | Scripts/GenTokens.py:40-57 | `token_decls`: the `%token` lines of the kept tokens, concatenated in order. `TokenGenerator.WriteBisonTokenSpec` is proved to build exactly this text. |
| TokenWriters.KeptExactly | Scripts/GenTokens.py:41-57 | A token gets a `%token` line exactly when it is in the list, its number is at least 258, and it is not an alias with a spelling. |
| TokenWriters.KeptSorted | Scripts/GenTokens.py:41-57 | The declarations come in the order of the sorted list, so they are sorted by kind. |
| TokenWriters.RegularTokensDeclared | Scripts/GenTokens.py:45-56 | Every token numbered by the counter gets a `%token` line, because its number is at least 259 and it is not an alias. |
| TokenWriters.SpliceBetween | Scripts/GenTokens.py:72-84 | The splice fails exactly when either marker is missing. Otherwise the result is the text through the first begin marker, then the declarations, then the text from the first end marker on. |
| TokenWriters.Splice | Scripts/GenTokens.py:62-84 | The splice between the two literal marker comments of the source. `SpliceBetween`'s contract states its result and error, and `SpliceReplacesSection` and `SpliceRerunnable` its effect on a grammar file. |
| TokenWriters.SpliceReplacesSection | Scripts/GenTokens.py:72-84 | On a file shaped begin marker, old section, end marker, with neither marker earlier, the old section is replaced by the new declarations and all else is kept. |
| TokenWriters.SpliceRerunnable | Scripts/GenTokens.py:72-84 | The output of a successful splice still holds both markers, so the generator can be run on it again. |
| TokenWriters.ConcatMapAt | Scripts/GenTokens.py:148-154 | The written text holds each token's line in list order, with the lines of all earlier tokens before it and all later ones after it. |
| TokenWriters.CppNameInjective | Scripts/GenTokens.py:148-153 | The naming convention (range bounds `BEGIN_…`/`END_…` bare, every other kind prefixed `TK_`) never maps two kinds to the same C++ name. |
| TokenWriters.CppNamesDistinct | Scripts/GenTokens.py:106-110 | Over a sorted token list, no enumerator and no `tokenName` key is generated twice. |
| TokenWriters.CppName | Scripts/GenTokens.py:149-153 | The C++ name of a kind: bare when it starts with `BEGIN_` or `END_`, prefixed `TK_` otherwise. `CppNameInjective` proves distinct kinds get distinct names. |
| TokenWriters.EnumItem | Scripts/GenTokens.py:149-153 | `    NAME = NUM,` for one token. |
| TokenWriters.NameEntry | Scripts/GenTokens.py:107-110 | `    { NAME, SPELLING },` for one token. |
| TokenWriters.TokenHeader | Scripts/GenTokens.py:128-164 | `Parsing/Token.h`: the file header, the literal prologue, one enumerator line per token in list order, the literal epilogue. `ConcatMapAt` places each line, and `CppNamesDistinct` rules out a repeated enumerator. |
| TokenWriters.TokenNames | Scripts/GenTokens.py:96-116 | `Parsing/TokenName.cpp`: the file header, the literal prologue, one name-table line per token in list order, the literal epilogue. `ConcatMapAt` places each line, and `CppNamesDistinct` rules out a repeated key. |
| GenTokens.InsertByKind | Scripts/GenTokens.py:224 | Inserting into a list sorted by kind gives a sorted list holding exactly the old items and the new one. |
| GenTokens.SortByKind | Scripts/GenTokens.py:224 | `sorted(_token_map.items(), key=itemgetter(0))` lists each item of the map exactly once, in strictly increasing kind order. |
| GenTokens.TokenGenerator.constructor | Scripts/GenTokens.py:30-32 | The three globals start empty. |
| GenTokens.TokenGenerator.AddToken | Scripts/GenTokens.py:191-220 | One TOKEN line updates the map, the alias set and the counter as `Step` does. When it raises, nothing has changed. |
| GenTokens.TokenGenerator.BuildTokenMap | Scripts/GenTokens.py:170-224 | The map and the alias set end as `Build` leaves them, including when a line raises, and the error is the one `Build` reports. Only on success is `_sorted_tokens` replaced, by the sorted listing of the map. |
| GenTokens.TokenGenerator.WriteBisonTokenSpec | Scripts/GenTokens.py:35-84 | The new grammar text is the splice of the kept tokens' `%token` lines, in sorted order, or the "got messed up" error. |
| GenTokens.TokenGenerator.WriteTokens | Scripts/GenTokens.py:122-167 | `Parsing/Token.h` is the header, the prologue, one `NAME = NUM,` line per sorted token and the epilogue. |
| GenTokens.TokenGenerator.WriteTokenNames | Scripts/GenTokens.py:90-120 | `Parsing/TokenName.cpp` is the header, the prologue, one `{ NAME, SPELLING },` line per sorted token and the epilogue. |

## Left out

- The concrete node kinds come from `NAME_AST_MIXIN` … `STMT_AST_MIXIN` in `Ast/AstDefs.h`, which is not part of this model. The layout is a parameter instead: six lists of member names.
- `Parsing/SourceLoc.h` is not part of this model. The location type is a type parameter of the node class.
- Raw-pointer and `std::unique_ptr` overloads are one method each. Ownership transfer, `reset` and deletion of the previous child are not modelled.
- The getters the macros generate are not modelled as separate members. They read the slot fields directly.
- `setNAMEsSR` and `finishSR` are left out, because `List::finishSR` is not part of this model.
- The `NAMED_*__` override forms are left out. They delegate to template members that are not part of this model.
- `newAst`, `AST_CLASS`, `CREATE_WITH_LOC` and `CREATE_WITH_AST` are left out. They allocate through `new` and call the setters modelled above.
- AstNode.Ast.MergeItems: does not state the list after merging a null list into a non-empty slot, because that call reaches `List::merge`, which is not part of this model. Merging null into an empty slot is modelled: the slot stays empty.
- The bit field layout is assumed to be allocated from the least significant bit: kind in bits 0-15, variety in 16-19, alloc in 20-21. C++ leaves this to the implementation; the usual compilers on little-endian targets do it this way.
- `UAISO_ASSERT(false, return "")` in `kindStr`'s default branch: the macro comes from a header that is not part of this model (by its name, `Common/Assert.h`). The model gives the branch's `return ""` and assumes that a failed assertion does not abort.
- File reading and writing, the `print` progress messages and `run()` are left out. Input texts are parameters and output texts are results.
- `GenLib.cpp_file_header()` is not part of this model. Its text is the `header` parameter.
- Python's `assert` statements are modelled as checked assertions. The one on `len(line) == 2` is the `FieldCount` error. Running with `-O`, which disables them, is not modelled.
- TokenMap.Step: has no error for the `assert(token_data.isdigit())` on an alias's number. On a table that holds a non-numeric number, where Python raises `AssertionError`, it succeeds. `BuildConsistent` proves that such a table never arises from the initial one, and `TokenGenerator.AddToken` proves the assertion from its precondition.
- Only ASCII whitespace and digits are modelled, as in Python 2 byte strings.
- `Python/PyCompletionTest.cpp` tests the Python completion engine. That engine is not part of this model.

## Notes on the source

- `kindStr` returns the empty string for every value that is not a member of a category: `Invalid`, the twelve markers, `Program`, `Generator` and `Filter`. All of these reach the `default` branch with its assertion, not only `Invalid`. The model follows the code.
- `write_bison_token_spec` does not check that the begin marker comes before the end marker. When they are swapped, the splice duplicates text; `SpliceBetween` states the result as the code computes it.
