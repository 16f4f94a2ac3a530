/**
 * What `build_token_map` computes from the lines of the token definition
 * file, as functions: the token table after each line, the error a line
 * raises, and the properties of the table the generator relies on.
 *
 * A definition line reads `TOKEN KIND SPELLING [DATA]`. A token without DATA
 * is numbered from a counter that starts at 259 (Bison numbers its named
 * tokens from 258, which the first token, IDENT, takes explicitly); DATA that
 * is a digit string is the token's number; any other DATA names an earlier
 * token whose number the new token, an alias, shares.
 */
module TokenMap {

  import opened Wrappers
  import opened PyStr

  /** A value of `_token_map`: `[number, spelling]`. */
  datatype Entry = Entry(num: string, spelling: string)

  /** The exceptions `build_token_map` raises. */
  datatype BuildError =
    | MissingField                    // IndexError: no KIND, or no SPELLING
    | DuplicateKind(kind: string)     // "Duplicate token kind"
    | UnknownReference(data: string)  // "Could not find matching reference"
    | FieldCount(count: nat)          // AssertionError: `len(line) == 2` fails

  /** `_token_map`, `_alias_tokens` and `token_num_counter`. */
  datatype Table = Table(tokens: map<string, Entry>, aliases: set<string>, counter: nat)

  /** The number of the first token numbered by the counter. */
  const FirstNumber: nat := 259

  const Initial: Table := Table(map[], {}, FirstNumber)

  /**
   * What the loop sees of one line: the fields after the leading word of a
   * line that, once stripped, starts with TOKEN; None for every other line,
   * which is skipped.
   */
  type Fields = Option<seq<string>>

  function TokenFields(line: string): Fields
  {
    var s := Strip(line);
    if StartsWith(s, "TOKEN") then Some(Split(s, ' ')[1..]) else None
  }

  /** The fields of every line of the definition file. */
  function Lex(lines: seq<string>): (r: seq<Fields>)
    ensures |r| == |lines| && forall i :: 0 <= i < |lines| ==> r[i] == TokenFields(lines[i])
  {
    seq(|lines|, i requires 0 <= i < |lines| => TokenFields(lines[i]))
  }

  /** A TOKEN line with KIND and SPELLING only: it takes the counter's number. */
  predicate IsRegular(f: Fields)
  {
    f.Some? && |f.value| == 2
  }

  /** The kind a TOKEN line declares, as a set of at most one element. */
  function LineKind(f: Fields): set<string>
  {
    if f.Some? && |f.value| >= 1 then {f.value[0]} else {}
  }

  function RegularCount(ls: seq<Fields>): nat
  {
    if ls == [] then 0 else (if IsRegular(ls[0]) then 1 else 0) + RegularCount(ls[1..])
  }

  function KindsOf(ls: seq<Fields>): set<string>
  {
    if ls == [] then {} else LineKind(ls[0]) + KindsOf(ls[1..])
  }

  /** Every number in the table is a digit string. */
  predicate Numeric(tokens: map<string, Entry>)
  {
    forall k :: k in tokens ==> IsDigits(tokens[k].num)
  }

  predicate Consistent(t: Table)
  {
    Numeric(t.tokens) && t.aliases <= t.tokens.Keys
  }

  /** `u` holds everything `t` holds, unchanged. */
  predicate Extends(t: Table, u: Table)
  {
    && t.aliases <= u.aliases
    && forall k :: k in t.tokens ==> k in u.tokens && u.tokens[k] == t.tokens[k]
  }

  /**
   * One iteration of the loop of `build_token_map`. A line that raises leaves
   * the table as it was: every check comes before the first update.
   */
  function Step(t: Table, line: Fields): (r: Result<Table, BuildError>)
    ensures line.None? ==> r == Success(t)
    ensures r.Success? ==> Extends(t, r.value)
    ensures r.Success? ==> r.value.counter == t.counter + (if IsRegular(line) then 1 else 0)
    ensures r.Success? ==> r.value.tokens.Keys == t.tokens.Keys + LineKind(line)
    ensures r.Success? && line.Some? ==> |line.value| in {2, 3} && line.value[0] !in t.tokens
    ensures r.Success? && Consistent(t) ==> Consistent(r.value)
    ensures r.Failure? && r.error.DuplicateKind? ==> r.error.kind in t.tokens
  {
    match line
    case None => Success(t)
    case Some(f) =>
      if |f| == 0 then Failure(MissingField)
      else if f[0] in t.tokens then Failure(DuplicateKind(f[0]))
      else if |f| == 1 then Failure(MissingField)
      else if |f| == 3 then
        if IsDigits(f[2]) then
          Success(t.(tokens := t.tokens[f[0] := Entry(f[2], f[1])]))
        else if f[2] !in t.tokens then
          Failure(UnknownReference(f[2]))
        else
          Success(t.(tokens := t.tokens[f[0] := Entry(t.tokens[f[2]].num, f[1])],
                     aliases := t.aliases + {f[0]}))
      else if |f| != 2 then
        Failure(FieldCount(|f|))
      else
        Success(t.(tokens := t.tokens[f[0] := Entry(NatToString(t.counter), f[1])],
                   counter := t.counter + 1))
  }

  /** The table when the loop ends or raises, and what it raised. */
  datatype Outcome = Outcome(table: Table, error: Option<BuildError>)

  /** The loop of `build_token_map` over `lines`, starting from `t`. */
  function Build(t: Table, lines: seq<Fields>): Outcome
    decreases |lines|
  {
    if lines == [] then Outcome(t, None)
    else
      match Step(t, lines[0])
      case Failure(e) => Outcome(t, Some(e))
      case Success(u) => Build(u, lines[1..])
  }

  /** The run from line `i` is the step of line `i`, then, unless it raised, the run from line `i + 1`. */
  lemma {:induction false} BuildFrom(t: Table, lines: seq<Fields>, i: nat)
    requires i < |lines|
    ensures Build(t, lines[i..]) ==
              match Step(t, lines[i])
              case Failure(e) => Outcome(t, Some(e))
              case Success(u) => Build(u, lines[i + 1..])
  {
    assert lines[i..][0] == lines[i] && lines[i..][1..] == lines[i + 1..];
  }

  /** Running over `a + b` is running over `a`, then, unless it raised, over `b`. */
  lemma {:induction false} BuildAppend(t: Table, a: seq<Fields>, b: seq<Fields>)
    ensures Build(t, a + b) == if Build(t, a).error.Some? then Build(t, a) else Build(Build(t, a).table, b)
    decreases |a|
  {
    if a == [] {
      assert a + b == b;
    } else {
      assert (a + b)[0] == a[0] && (a + b)[1..] == a[1..] + b;
      match Step(t, a[0])
      case Failure(_) =>
      case Success(u) => BuildAppend(u, a[1..], b);
    }
  }

  /** No line overwrites an entry or drops an alias. */
  lemma {:induction false} BuildExtends(t: Table, lines: seq<Fields>)
    ensures Extends(t, Build(t, lines).table)
    decreases |lines|
  {
    if lines != [] {
      match Step(t, lines[0])
      case Failure(_) =>
      case Success(u) => BuildExtends(u, lines[1..]);
    }
  }

  /** Numbers stay digit strings and aliases stay keys of the table. */
  lemma {:induction false} BuildConsistent(t: Table, lines: seq<Fields>)
    requires Consistent(t)
    ensures Consistent(Build(t, lines).table)
    decreases |lines|
  {
    if lines != [] {
      match Step(t, lines[0])
      case Failure(_) =>
      case Success(u) => BuildConsistent(u, lines[1..]);
    }
  }

  /** Only the regular lines advance the counter, by one each. */
  lemma {:induction false} BuildCounter(t: Table, lines: seq<Fields>)
    requires Build(t, lines).error.None?
    ensures Build(t, lines).table.counter == t.counter + RegularCount(lines)
    decreases |lines|
  {
    if lines != [] {
      match Step(t, lines[0])
      case Failure(_) =>
      case Success(u) => BuildCounter(u, lines[1..]);
    }
  }

  /** The table's kinds are the earlier ones and those of the TOKEN lines. */
  lemma {:induction false} BuildKeys(t: Table, lines: seq<Fields>)
    requires Build(t, lines).error.None?
    ensures Build(t, lines).table.tokens.Keys == t.tokens.Keys + KindsOf(lines)
    decreases |lines|
  {
    if lines != [] {
      match Step(t, lines[0])
      case Failure(_) =>
      case Success(u) => BuildKeys(u, lines[1..]);
    }
  }

  lemma {:induction false} KindsOfLine(lines: seq<Fields>, i: nat)
    requires i < |lines|
    ensures LineKind(lines[i]) <= KindsOf(lines)
  {
    if i > 0 {
      assert lines[1..][i - 1] == lines[i];
      KindsOfLine(lines[1..], i - 1);
    }
  }

  /**
   * In a run that does not raise, line `i` sees the table the earlier lines
   * built, succeeds, and what it adds is still there at the end.
   */
  lemma {:induction false} LineStep(t: Table, lines: seq<Fields>, i: nat) returns (before: Table, after: Table)
    requires i < |lines|
    requires Build(t, lines).error.None?
    ensures Build(t, lines[..i]) == Outcome(before, None)
    ensures Step(before, lines[i]) == Success(after)
    ensures Build(t, lines) == Build(after, lines[i + 1..])
    ensures Extends(after, Build(t, lines).table)
  {
    assert lines == lines[..i] + lines[i..];
    BuildAppend(t, lines[..i], lines[i..]);
    before := Build(t, lines[..i]).table;
    var rest := lines[i..];
    assert rest[0] == lines[i] && rest[1..] == lines[i + 1..];
    after := Step(before, lines[i]).value;
    BuildExtends(after, lines[i + 1..]);
  }

  /**
   * A regular token gets the counter's value at its line: 259 plus the
   * number of regular lines before it, when starting from the initial table.
   */
  lemma {:induction false} RegularNumbering(t: Table, lines: seq<Fields>, i: nat)
    requires i < |lines| && IsRegular(lines[i])
    requires Build(t, lines).error.None?
    ensures var f := lines[i].value;
      && f[0] in Build(t, lines).table.tokens
      && Build(t, lines).table.tokens[f[0]] ==
           Entry(NatToString(t.counter + RegularCount(lines[..i])), f[1])
  {
    var before, after := LineStep(t, lines, i);
    BuildCounter(t, lines[..i]);
  }

  /** A token with numeric DATA takes that DATA, as written, for its number. */
  lemma {:induction false} ExplicitNumber(t: Table, lines: seq<Fields>, i: nat)
    requires i < |lines| && lines[i].Some?
    requires var f := lines[i].value; |f| == 3 && IsDigits(f[2])
    requires Build(t, lines).error.None?
    ensures var f := lines[i].value;
      && f[0] in Build(t, lines).table.tokens
      && Build(t, lines).table.tokens[f[0]] == Entry(f[2], f[1])
  {
    var before, after := LineStep(t, lines, i);
  }

  /**
   * An alias names a token of an earlier line (or of the starting table), is
   * recorded as an alias, and shares that token's number. A forward or
   * unknown reference therefore makes the run raise.
   */
  lemma {:induction false} AliasResolved(t: Table, lines: seq<Fields>, i: nat)
    requires i < |lines| && lines[i].Some?
    requires var f := lines[i].value; |f| == 3 && !IsDigits(f[2])
    requires Build(t, lines).error.None?
    ensures var f := lines[i].value;
      var tokens := Build(t, lines).table.tokens;
      && f[2] in t.tokens.Keys + KindsOf(lines[..i])
      && f[0] in Build(t, lines).table.aliases
      && f[0] in tokens && f[2] in tokens
      && tokens[f[0]] == Entry(tokens[f[2]].num, f[1])
  {
    var before, after := LineStep(t, lines, i);
    BuildKeys(t, lines[..i]);
  }

  /** A run that does not raise saw only TOKEN lines with two or three fields. */
  lemma {:induction false} FieldCounts(t: Table, lines: seq<Fields>, i: nat)
    requires i < |lines| && lines[i].Some?
    requires Build(t, lines).error.None?
    ensures |lines[i].value| in {2, 3}
  {
    var before, after := LineStep(t, lines, i);
  }

  /**
   * A run that does not raise saw every kind once: two TOKEN lines never
   * declare the same kind, and none redeclares a kind of the starting table.
   */
  lemma {:induction false} DistinctKinds(t: Table, lines: seq<Fields>, i: nat, j: nat)
    requires i < j < |lines|
    requires lines[i].Some? && lines[j].Some?
    requires Build(t, lines).error.None?
    ensures LineKind(lines[i]) != {} && LineKind(lines[j]) != {}
    ensures LineKind(lines[j]) !! t.tokens.Keys
    ensures LineKind(lines[i]) !! LineKind(lines[j])
  {
    var bi, ai := LineStep(t, lines, i);
    var bj, aj := LineStep(t, lines, j);
    BuildKeys(t, lines[..j]);
    assert lines[..j][i] == lines[i];
    KindsOfLine(lines[..j], i);
  }

  /** Later lines only make new kinds aliases: a kind already in the table that is no alias never becomes one. */
  lemma {:induction false} AliasesOnlyNew(t: Table, lines: seq<Fields>, k: string)
    requires k in t.tokens && k !in t.aliases
    ensures k !in Build(t, lines).table.aliases
    decreases |lines|
  {
    if lines != [] {
      match Step(t, lines[0])
      case Failure(_) =>
      case Success(u) =>
        assert k in u.tokens && k !in u.aliases;
        AliasesOnlyNew(u, lines[1..], k);
    }
  }

  /** A regular token is never an alias, so the Bison declarations keep it. */
  lemma {:induction false} RegularNotAlias(t: Table, lines: seq<Fields>, i: nat)
    requires Consistent(t)
    requires i < |lines| && IsRegular(lines[i])
    requires Build(t, lines).error.None?
    ensures lines[i].value[0] !in Build(t, lines).table.aliases
  {
    var before, after := LineStep(t, lines, i);
    BuildConsistent(t, lines[..i]);
    AliasesOnlyNew(after, lines[i + 1..], lines[i].value[0]);
  }

  /** `_sorted_tokens` items: `(kind, [number, spelling])`. */
  type Item = (string, Entry)

  predicate SortedByKind(s: seq<Item>)
  {
    forall i, j :: 0 <= i < j < |s| ==> StrLess(s[i].0, s[j].0)
  }

  /** `s` is `sorted(m.items(), key=itemgetter(0))`: m's items, by kind. */
  ghost predicate ListsExactly(s: seq<Item>, m: map<string, Entry>)
  {
    && SortedByKind(s)
    && forall p :: p in s <==> p.0 in m && m[p.0] == p.1
  }

  /** There is only one such listing of a map. */
  lemma {:induction false} ListingUnique(s1: seq<Item>, s2: seq<Item>, m: map<string, Entry>)
    requires ListsExactly(s1, m) && ListsExactly(s2, m)
    ensures s1 == s2
    decreases |s1|
  {
    ListingEmpty(s1, m);
    ListingEmpty(s2, m);
    if s1 == [] || s2 == [] {
    } else {
      var a, b := s1[0], s2[0];
      assert a in s2 && b in s1;
      if a != b {
        var i :| 0 <= i < |s1| && s1[i] == b;
        var j :| 0 <= j < |s2| && s2[j] == a;
        assert i > 0 && j > 0;
        StrLessTransitive(a.0, b.0, a.0);
        StrLessIrreflexive(a.0);
      }
      var m' := map k | k in m && k != a.0 :: m[k];
      TailListing(s1, m, m');
      TailListing(s2, m, m');
      ListingUnique(s1[1..], s2[1..], m');
      assert s1 == [a] + s1[1..] && s2 == [b] + s2[1..];
    }
  }

  lemma {:induction false} ListingEmpty(s: seq<Item>, m: map<string, Entry>)
    requires ListsExactly(s, m)
    ensures s == [] <==> m.Keys == {}
  {
    if s != [] {
      assert s[0] in s;
    }
    if m.Keys != {} {
      var k :| k in m;
      assert (k, m[k]) in s;
    }
  }

  lemma {:induction false} TailListing(s: seq<Item>, m: map<string, Entry>, m': map<string, Entry>)
    requires ListsExactly(s, m) && s != []
    requires m' == map k | k in m && k != s[0].0 :: m[k]
    ensures ListsExactly(s[1..], m')
  {
    forall p: Item | p in s[1..]
      ensures p.0 != s[0].0
    {
      var i :| 0 <= i < |s[1..]| && s[1..][i] == p;
      assert s[i + 1] == p;
      StrLessIrreflexive(p.0);
    }
    forall p: Item | p.0 in m' && m'[p.0] == p.1
      ensures p in s[1..]
    {
      assert p in s;
      assert p != s[0];
      var i :| 0 <= i < |s| && s[i] == p;
      assert s[1..][i - 1] == p;
    }
  }
}
