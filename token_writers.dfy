/**
 * The text the token generator writes, as functions of the sorted token
 * list: the Bison `%token` declarations and their splice into a grammar
 * file, the `Token` enumeration of Parsing/Token.h and the name table of
 * Parsing/TokenName.cpp.
 */
module TokenWriters {

  import opened Wrappers
  import opened PyStr
  import opened TokenMap

  /** Tokens numbered below this are single ASCII characters Bison defines itself. */
  const FirstBisonNumber: nat := 258

  /** Every number of the list is a digit string, which `int()` accepts. */
  predicate NumericItems(s: seq<Item>)
  {
    forall i :: 0 <= i < |s| ==> IsDigits(s[i].1.num)
  }

  /** The lines `f` makes of the items of `s`, concatenated in order. */
  function ConcatMap<T>(s: seq<T>, f: T -> string): string
  {
    if s == [] then "" else ConcatMap(s[..|s| - 1], f) + f(s[|s| - 1])
  }

  lemma {:induction false} ConcatMapAppend<T>(a: seq<T>, b: seq<T>, f: T -> string)
    ensures ConcatMap(a + b, f) == ConcatMap(a, f) + ConcatMap(b, f)
    decreases |b|
  {
    if b == [] {
      assert a + b == a;
    } else {
      assert (a + b)[..|a + b| - 1] == a + b[..|b| - 1];
      ConcatMapAppend(a, b[..|b| - 1], f);
    }
  }

  lemma {:induction false} ConcatMapCons<T>(x: T, s: seq<T>, f: T -> string)
    ensures ConcatMap([x] + s, f) == f(x) + ConcatMap(s, f)
  {
    ConcatMapAppend([x], s, f);
    assert [x][..0] == [];
  }

  /** One more item adds its line at the end. */
  lemma {:induction false} ConcatMapSnoc<T>(s: seq<T>, f: T -> string, i: nat)
    requires i < |s|
    ensures ConcatMap(s[..i + 1], f) == ConcatMap(s[..i], f) + f(s[i])
  {
    assert s[..i + 1][..i] == s[..i];
  }

  /** A text made of an opening and the lines of the first `i` items, with the next line appended. */
  lemma {:induction false} ExtendText<T>(opening: string, s: seq<T>, f: T -> string, i: nat, line: string)
    requires i < |s| && line == f(s[i])
    ensures opening + ConcatMap(s[..i], f) + line == opening + ConcatMap(s[..i + 1], f)
  {
    ConcatMapSnoc(s, f, i);
  }

  /** The line of every item is in the text, in order: before it the lines of the earlier items, after it those of the later ones. */
  lemma {:induction false} ConcatMapAt<T>(s: seq<T>, f: T -> string, i: nat)
    requires i < |s|
    ensures ConcatMap(s, f) == ConcatMap(s[..i], f) + (f(s[i]) + ConcatMap(s[i + 1..], f))
  {
    var x, y, z := ConcatMap(s[..i], f), f(s[i]), ConcatMap(s[i + 1..], f);
    assert ConcatMap(s, f) == x + ConcatMap(s[i..], f) by {
      assert s == s[..i] + s[i..];
      ConcatMapAppend(s[..i], s[i..], f);
    }
    assert ConcatMap(s[i..], f) == y + z by {
      assert s[i..] == [s[i]] + s[i + 1..];
      ConcatMapCons(s[i], s[i + 1..], f);
    }
  }


  // ---- write_bison_token_spec ----

  /**
   * Whether a token gets a `%token` declaration: its number is at least 258,
   * and it is not an alias that has a spelling.
   */
  predicate Declared(t: Item, aliases: set<string>)
  {
    && IsDigits(t.1.num)
    && DigitsValue(t.1.num) >= FirstBisonNumber
    && !(t.1.spelling != "" && t.0 in aliases)
  }

  /** `%token KIND NUM SPELLING`, or `%token KIND NUM` for an empty spelling. */
  function DeclLine(t: Item): string
  {
    if t.1.spelling != "" then "%token " + t.0 + " " + t.1.num + " " + t.1.spelling + "\n"
    else "%token " + t.0 + " " + t.1.num + "\n"
  }

  /** The tokens that get a declaration, in the order of the list. */
  function Kept(s: seq<Item>, aliases: set<string>): seq<Item>
  {
    if s == [] then []
    else Kept(s[..|s| - 1], aliases) + (if Declared(s[|s| - 1], aliases) then [s[|s| - 1]] else [])
  }

  /** The `%token` declarations the generator splices into a grammar file. */
  function BisonDecls(s: seq<Item>, aliases: set<string>): string
  {
    ConcatMap(Kept(s, aliases), DeclLine)
  }

  /** One more token adds its declaration at the end when it passes the filter. */
  lemma {:induction false} KeptSnoc(s: seq<Item>, aliases: set<string>, i: nat)
    requires i < |s|
    ensures BisonDecls(s[..i + 1], aliases) ==
              BisonDecls(s[..i], aliases) + (if Declared(s[i], aliases) then DeclLine(s[i]) else "")
  {
    assert s[..i + 1][..i] == s[..i];
    var k := Kept(s[..i], aliases);
    if Declared(s[i], aliases) {
      ConcatMapAppend(k, [s[i]], DeclLine);
      assert ConcatMap([s[i]], DeclLine) == DeclLine(s[i]) by {
        assert [s[i]][..0] == [];
      }
    } else {
      assert k + [] == k;
    }
  }

  /** Exactly the tokens of the list that pass the filter are declared. */
  lemma {:induction false} KeptExactly(s: seq<Item>, aliases: set<string>)
    ensures forall t :: t in Kept(s, aliases) <==> t in s && Declared(t, aliases)
    decreases |s|
  {
    if s != [] {
      var init := s[..|s| - 1];
      KeptExactly(init, aliases);
      assert s == init + [s[|s| - 1]];
    }
  }

  /** The declarations keep the order of the list, so they are sorted by kind. */
  lemma {:induction false} KeptSorted(s: seq<Item>, aliases: set<string>)
    requires SortedByKind(s)
    ensures SortedByKind(Kept(s, aliases))
    decreases |s|
  {
    if s != [] {
      var init := s[..|s| - 1];
      var last := s[|s| - 1];
      KeptSorted(init, aliases);
      KeptExactly(init, aliases);
      var k := Kept(init, aliases);
      forall i | 0 <= i < |k|
        ensures StrLess(k[i].0, last.0)
      {
        assert k[i] in init;
        var j :| 0 <= j < |init| && init[j] == k[i];
        assert s[j] == k[i];
      }
    }
  }

  /**
   * Every token numbered by the counter gets a `%token` declaration: its
   * number is at least 259 and it is not an alias, so it is among the kept
   * tokens of the sorted listing of the table.
   */
  lemma RegularTokensDeclared(lines: seq<Fields>, i: nat, s: seq<Item>)
    requires i < |lines| && IsRegular(lines[i])
    requires Build(Initial, lines).error.None?
    requires ListsExactly(s, Build(Initial, lines).table.tokens)
    ensures var o := Build(Initial, lines).table;
      var k := lines[i].value[0];
      && k in o.tokens
      && Declared((k, o.tokens[k]), o.aliases)
      && (k, o.tokens[k]) in Kept(s, o.aliases)
  {
    var o := Build(Initial, lines).table;
    var k := lines[i].value[0];
    RegularNumbering(Initial, lines, i);
    RegularNotAlias(Initial, lines, i);
    KeptExactly(s, o.aliases);
  }

  /** The two marker comments that bracket the generated declarations. */
  const BeginMark: string :=
    "    /*--------------------------------------------------*/\n" +
    "    /*---            Token declarations              ---*/\n" +
    "    /*---                                            ---*/\n" +
    "    /*---  This section is AUTOMATICALLY GENERATED.  ---*/\n" +
    "    /*--- Do NOT edit manually, changes will be lost ---*/\n" +
    "    /*---       Please refer to Tokens.def           ---*/\n" +
    "    /*--------------------------------------------------*/\n"

  const EndMark: string :=
    "    /*------------------------------------------*/\n" +
    "    /*--- Tokens AUTOMATICALLY GENERATED end ---*/\n" +
    "    /*------------------------------------------*/\n"

  /** The exception "<file> got messed up". */
  datatype SpliceError = MarkersMissing

  predicate FirstOccurrence(s: string, pat: string, i: int)
  {
    OccursAt(s, pat, i) && forall j :: 0 <= j < i ==> !OccursAt(s, pat, j)
  }

  /**
   * `content` with `decls` spliced in between two marker lines: the text up
   * to the end of the first `open`, then `decls`, then the text from the
   * first `close` on. It raises when either marker is missing; the order of
   * the two markers is not checked.
   */
  function SpliceBetween(content: string, open: string, close: string, decls: string): (r: Result<string, SpliceError>)
    ensures r.Failure? <==> (forall i :: !OccursAt(content, open, i)) || (forall j :: !OccursAt(content, close, j))
    ensures r.Success? ==> exists b, e ::
              && FirstOccurrence(content, open, b) && FirstOccurrence(content, close, e)
              && r.value == content[..b + |open|] + decls + content[e..]
  {
    var begin := Find(content, open);
    var end := Find(content, close);
    if begin == -1 || end == -1 then Failure(MarkersMissing)
    else
      assert FirstOccurrence(content, open, begin) && FirstOccurrence(content, close, end);
      Success(content[..begin + |open|] + decls + content[end..])
  }

  /** The grammar file with the generated `%token` section replaced by `decls`. */
  function Splice(content: string, decls: string): Result<string, SpliceError>
  {
    SpliceBetween(content, BeginMark, EndMark, decls)
  }

  /**
   * Regenerating a file replaces its generated section: when the opening
   * marker is followed by the old section and then the closing marker, and
   * neither marker occurs earlier, the old section gives way to `decls`.
   */
  lemma {:induction false} SpliceReplacesSection(open: string, close: string, pre: string, section: string, post: string, decls: string)
    requires var c := pre + open + section + close + post;
      && (forall j :: 0 <= j < |pre| ==> !OccursAt(c, open, j))
      && (forall j :: 0 <= j < |pre| + |open| + |section| ==> !OccursAt(c, close, j))
    ensures SpliceBetween(pre + open + section + close + post, open, close, decls) ==
              Success(pre + open + decls + close + post)
  {
    var c := pre + open + section + close + post;
    var b := |pre|;
    var e := |pre| + |open| + |section|;
    assert c[b..b + |open|] == open;
    assert c[e..e + |close|] == close;
    assert Find(c, open) == b by {
      assert OccursAt(c, open, b);
    }
    assert Find(c, close) == e by {
      assert OccursAt(c, close, e);
    }
    assert c[..b + |open|] == pre + open;
    assert c[e..] == close + post;
    assert (pre + open) + decls + (close + post) == pre + open + decls + close + post;
  }

  /** Splicing at occurrences `b` of `open` and `e` of `close` keeps both markers. */
  lemma {:induction false} SpliceKeepsMarkers(content: string, open: string, close: string, decls: string, b: nat, e: nat)
    requires OccursAt(content, open, b) && OccursAt(content, close, e)
    ensures var r := content[..b + |open|] + decls + content[e..];
      OccursAt(r, open, b) && OccursAt(r, close, b + |open| + |decls|)
  {
    var head := content[..b + |open|];
    var r := head + decls + content[e..];
    assert r[b..b + |open|] == content[b..b + |open|];
    assert r[|head| + |decls|..] == content[e..];
    assert r[|head| + |decls|..|head| + |decls| + |close|] == content[e..e + |close|];
  }

  /** The output still holds both markers, so the generator can be run on it again. */
  lemma {:induction false} SpliceRerunnable(content: string, open: string, close: string, decls: string, next: string)
    requires SpliceBetween(content, open, close, decls).Success?
    ensures SpliceBetween(SpliceBetween(content, open, close, decls).value, open, close, next).Success?
  {
    var r := SpliceBetween(content, open, close, decls).value;
    var b, e :| && FirstOccurrence(content, open, b) && FirstOccurrence(content, close, e)
                && r == content[..b + |open|] + decls + content[e..];
    SpliceKeepsMarkers(content, open, close, decls, b, e);
  }

  // ---- write_tokens and write_token_names ----

  /** A kind that marks the bound of a token range rather than a token. */
  predicate IsRangeBound(kind: string)
  {
    StartsWith(kind, "BEGIN_") || StartsWith(kind, "END_")
  }

  /** The C++ name of a token kind: range bounds bare, all others prefixed `TK_`. */
  function CppName(kind: string): string
  {
    if IsRangeBound(kind) then kind else "TK_" + kind
  }

  /** A range bound never looks like a `TK_`-prefixed name. */
  lemma {:induction false} BareNotPrefixed(a: string, b: string)
    requires IsRangeBound(a)
    ensures a != "TK_" + b
  {
    assert a[0] == 'B' || a[0] == 'E';
  }

  /** Distinct kinds get distinct C++ names. */
  lemma {:induction false} CppNameInjective(a: string, b: string)
    requires CppName(a) == CppName(b)
    ensures a == b
  {
    if IsRangeBound(a) && !IsRangeBound(b) {
      BareNotPrefixed(a, b);
    } else if !IsRangeBound(a) && IsRangeBound(b) {
      BareNotPrefixed(b, a);
    } else if !IsRangeBound(a) {
      assert a == CppName(a)[3..] && b == CppName(b)[3..];
    }
  }

  /** No enumerator and no name-table key is generated twice. */
  lemma {:induction false} CppNamesDistinct(s: seq<Item>)
    requires SortedByKind(s)
    ensures forall i, j :: 0 <= i < j < |s| ==> CppName(s[i].0) != CppName(s[j].0)
  {
    forall i, j | 0 <= i < j < |s|
      ensures CppName(s[i].0) != CppName(s[j].0)
    {
      StrLessIrreflexive(s[i].0);
      if CppName(s[i].0) == CppName(s[j].0) {
        CppNameInjective(s[i].0, s[j].0);
      }
    }
  }

  /** `    NAME = NUM,` in the `Token` enumeration. */
  function EnumItem(t: Item): string
  {
    "    " + CppName(t.0) + " = " + t.1.num + ",\n"
  }

  /** `    { NAME, SPELLING },` in the `tokenName` map. */
  function NameEntry(t: Item): string
  {
    "    { " + CppName(t.0) + ", " + t.1.spelling + " },\n"
  }

  /** The enumerator line written out per branch, as the generator builds it. */
  lemma {:induction false} EnumItemFormat(t: Item)
    ensures EnumItem(t) == if IsRangeBound(t.0) then "    " + t.0 + " = " + t.1.num + ",\n"
                           else "    TK_" + t.0 + " = " + t.1.num + ",\n"
  {
    if !IsRangeBound(t.0) {
      assert "    " + ("TK_" + t.0) == "    TK_" + t.0;
    }
  }

  /** The name-table line written out per branch, as the generator builds it. */
  lemma {:induction false} NameEntryFormat(t: Item)
    ensures NameEntry(t) == if IsRangeBound(t.0) then "    { " + t.0 + ", " + t.1.spelling + " },\n"
                            else "    { TK_" + t.0 + ", " + t.1.spelling + " },\n"
  {
    if !IsRangeBound(t.0) {
      assert "    { " + ("TK_" + t.0) == "    { TK_" + t.0;
    }
  }

  const TokenHeaderOpen: string :=
    "#ifndef UAISO_TOKEN_H__\n" +
    "#define UAISO_TOKEN_H__\n" +
    "\n" +
    "#include \"Common/Config.h\"\n" +
    "#include <cstdint>\n" +
    "#include <iostream>\n" +
    "#include <unordered_map>\n" +
    "\n" +
    "namespace uaiso {\n" +
    "\n" +
    "/* Tokens are unified, it's reponsibility of a lexer to provide only\n" +
    "   the relevant tokens for a particular language. */\n" +
    "\n" +
    "enum Token : std::uint16_t\n" +
    "{\n"

  const TokenHeaderClose: string :=
    "};\n" +
    "\n" +
    "UAISO_API std::ostream& operator<<(std::ostream& os, Token tk);\n" +
    "\n" +
    "} // namespace uaiso\n" +
    "\n" +
    "#endif"

  const TokenNamesOpen: string :=
    "#include \"Parsing/Token.h\"\n" +
    "\n" +
    "namespace uaiso {\n" +
    "\n" +
    "std::unordered_map<std::uint16_t, const char*> tokenName {\n"

  const TokenNamesClose: string :=
    "};\n" +
    "\n" +
    "} // namespace uaiso\n"

  /** Parsing/Token.h, after the file header `header`. */
  function TokenHeader(header: string, s: seq<Item>): string
  {
    header + TokenHeaderOpen + ConcatMap(s, EnumItem) + TokenHeaderClose
  }

  /** Parsing/TokenName.cpp, after the file header `header`. */
  function TokenNames(header: string, s: seq<Item>): string
  {
    header + TokenNamesOpen + ConcatMap(s, NameEntry) + TokenNamesClose
  }
}
