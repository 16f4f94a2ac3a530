/**
 * The token generator: the module state (the token map, the sorted token
 * list and the alias set), the loop that builds the map from the lines of
 * Parsing/Tokens.def, and the loops that write the Bison declarations, the
 * `Token` enumeration and the token names. Each method is proved against
 * the functions of TokenMap and TokenWriters.
 */
module GenTokens {

  import opened Wrappers
  import opened PyStr
  import opened TokenMap
  import opened TokenWriters

  /** `x` put into its place in a list sorted by kind. */
  function InsertByKind(s: seq<Item>, x: Item): (r: seq<Item>)
    requires SortedByKind(s)
    requires forall p :: p in s ==> p.0 != x.0
    ensures SortedByKind(r)
    ensures forall p :: p in r <==> p in s || p == x
    decreases |s|
  {
    if s == [] then [x]
    else if StrLess(x.0, s[0].0) then
      assert forall j | 0 <= j < |s| :: StrLess(x.0, s[j].0) by {
        forall j | 0 < j < |s| {
          StrLessTransitive(x.0, s[0].0, s[j].0);
        }
      }
      [x] + s
    else
      var tail := InsertByKind(s[1..], x);
      assert StrLess(s[0].0, x.0) by {
        assert s[0] in s;
        StrLessTotal(x.0, s[0].0);
      }
      assert forall p | p in tail :: StrLess(s[0].0, p.0) by {
        forall p | p in tail && p != x
          ensures StrLess(s[0].0, p.0)
        {
          var j :| 0 <= j < |s[1..]| && s[1..][j] == p;
          assert s[j + 1] == p;
        }
      }
      [s[0]] + tail
  }

  /** `sorted(m.items(), key=itemgetter(0))`: the entries of `m` in increasing kind order. */
  method SortByKind(m: map<string, Entry>) returns (s: seq<Item>)
    ensures ListsExactly(s, m)
  {
    s := [];
    var rest := m.Keys;
    while rest != {}
      invariant rest <= m.Keys
      invariant SortedByKind(s)
      invariant forall p :: p in s <==> p.0 in m && p.0 !in rest && m[p.0] == p.1
      decreases rest
    {
      var k :| k in rest;
      s := InsertByKind(s, (k, m[k]));
      rest := rest - {k};
    }
  }

  class TokenGenerator {
    /** `_token_map`: each kind's number and spelling. */
    var tokenMap: map<string, Entry>
    /** `_sorted_tokens`: the entries of the map in kind order, as of the last successful build. */
    var sortedTokens: seq<Item>
    /** `_alias_tokens`: the kinds whose number was taken from another token. */
    var aliasTokens: set<string>

    /** The state the writers rely on: every number is a digit string, and every alias is in the map. */
    ghost predicate Valid()
      reads this
    {
      Consistent(Table(tokenMap, aliasTokens, FirstNumber)) && NumericItems(sortedTokens)
    }

    /** The module's initial globals. */
    constructor ()
      ensures Valid()
      ensures tokenMap == map[] && sortedTokens == [] && aliasTokens == {}
    {
      tokenMap := map[];
      sortedTokens := [];
      aliasTokens := {};
    }

    /**
     * The body of the loop of `build_token_map` for a TOKEN line split into
     * `fields`, with the counter's current value: the table and the counter
     * as `Step` leaves them, or the exception, before which nothing changed.
     */
    method AddToken(fields: seq<string>, counter: nat) returns (err: Option<BuildError>, next: nat)
      requires Valid()
      modifies this
      ensures Valid() && sortedTokens == old(sortedTokens)
      ensures match Step(Table(old(tokenMap), old(aliasTokens), counter), Some(fields))
              case Failure(e) => err == Some(e) && tokenMap == old(tokenMap) && aliasTokens == old(aliasTokens)
              case Success(u) => err == None && Table(tokenMap, aliasTokens, next) == u
    {
      next := counter;
      if |fields| == 0 {
        return Some(MissingField), next;
      }
      var tokenKind := fields[0];
      if tokenKind in tokenMap {
        return Some(DuplicateKind(tokenKind)), next;
      }
      if |fields| == 1 {
        return Some(MissingField), next;
      }
      var tokenSpelling := fields[1];
      if |fields| == 3 {
        var tokenData := fields[2];
        if !IsDigits(tokenData) {
          if tokenData !in tokenMap {
            return Some(UnknownReference(tokenData)), next;
          }
          tokenData := tokenMap[tokenData].num;
          assert IsDigits(tokenData);
          aliasTokens := aliasTokens + {tokenKind};
        }
        tokenMap := tokenMap[tokenKind := Entry(tokenData, tokenSpelling)];
      } else {
        if |fields| != 2 {
          return Some(FieldCount(|fields|)), next;
        }
        tokenMap := tokenMap[tokenKind := Entry(NatToString(counter), tokenSpelling)];
        next := counter + 1;
      }
      err := None;
    }

    /**
     * `build_token_map` over the lines of the definitions file. The map and
     * the alias set end as the table of `Build` leaves them, also when a line
     * raises; the sorted list is only replaced when no line raised.
     */
    method BuildTokenMap(lines: seq<string>) returns (err: Option<BuildError>)
      requires Valid()
      modifies this
      ensures Valid()
      ensures var o := Build(Table(old(tokenMap), old(aliasTokens), FirstNumber), Lex(lines));
              && err == o.error && tokenMap == o.table.tokens && aliasTokens == o.table.aliases
      ensures err.None? ==> ListsExactly(sortedTokens, tokenMap)
      ensures err.Some? ==> sortedTokens == old(sortedTokens)
    {
      ghost var ls := Lex(lines);
      ghost var start := Table(tokenMap, aliasTokens, FirstNumber);
      var counter := FirstNumber;
      var i := 0;
      while i < |lines|
        invariant 0 <= i <= |lines|
        invariant Valid()
        invariant Build(start, ls) == Build(Table(tokenMap, aliasTokens, counter), ls[i..])
        invariant sortedTokens == old(sortedTokens)
      {
        BuildFrom(Table(tokenMap, aliasTokens, counter), ls, i);
        var line := Strip(lines[i]);
        if StartsWith(line, "TOKEN") {
          var fields := Split(line, ' ')[1..];
          assert ls[i] == Some(fields);
          err, counter := AddToken(fields, counter);
          if err.Some? {
            return;
          }
        } else {
          assert ls[i] == None;
        }
        i := i + 1;
      }
      assert ls[i..] == [];
      sortedTokens := SortByKind(tokenMap);
      err := None;
    }

    /**
     * `write_bison_token_spec` on the text of a grammar file: the declarations
     * of the sorted tokens spliced between the markers, or the error when a
     * marker is missing.
     */
    method WriteBisonTokenSpec(content: string) returns (r: Result<string, SpliceError>)
      requires Valid()
      ensures r == Splice(content, BisonDecls(sortedTokens, aliasTokens))
    {
      var tokenDecls := "";
      for i := 0 to |sortedTokens|
        invariant tokenDecls == BisonDecls(sortedTokens[..i], aliasTokens)
      {
        var token := sortedTokens[i];
        KeptSnoc(sortedTokens, aliasTokens, i);
        var tokenNum := token.1.num;
        if DigitsValue(tokenNum) < FirstBisonNumber {
          continue;
        }
        var tokenDecl;
        if token.1.spelling != "" {
          if token.0 in aliasTokens {
            continue;
          }
          tokenDecl := "%token " + token.0 + " " + tokenNum + " " + token.1.spelling + "\n";
        } else {
          tokenDecl := "%token " + token.0 + " " + tokenNum + "\n";
        }
        tokenDecls := tokenDecls + tokenDecl;
      }
      assert sortedTokens[..|sortedTokens|] == sortedTokens;
      r := Splice(content, tokenDecls);
    }

    /** `write_tokens`: the text of Parsing/Token.h after the file header `header`. */
    method WriteTokens(header: string) returns (content: string)
      ensures content == TokenHeader(header, sortedTokens)
    {
      content := header + TokenHeaderOpen;
      ghost var opening := content;
      for i := 0 to |sortedTokens|
        invariant content == opening + ConcatMap(sortedTokens[..i], EnumItem)
      {
        var token := sortedTokens[i];
        EnumItemFormat(token);
        var enumItem;
        if StartsWith(token.0, "BEGIN_") || StartsWith(token.0, "END_") {
          enumItem := "    " + token.0 + " = " + token.1.num + ",\n";
        } else {
          enumItem := "    TK_" + token.0 + " = " + token.1.num + ",\n";
        }
        ExtendText(opening, sortedTokens, EnumItem, i, enumItem);
        content := content + enumItem;
      }
      assert sortedTokens[..|sortedTokens|] == sortedTokens;
      content := content + TokenHeaderClose;
    }

    /** `write_token_names`: the text of Parsing/TokenName.cpp after the file header `header`. */
    method WriteTokenNames(header: string) returns (content: string)
      ensures content == TokenNames(header, sortedTokens)
    {
      content := header + TokenNamesOpen;
      ghost var opening := content;
      for i := 0 to |sortedTokens|
        invariant content == opening + ConcatMap(sortedTokens[..i], NameEntry)
      {
        var token := sortedTokens[i];
        NameEntryFormat(token);
        var nameEntry;
        if StartsWith(token.0, "BEGIN_") || StartsWith(token.0, "END_") {
          nameEntry := "    { " + token.0 + ", " + token.1.spelling + " },\n";
        } else {
          nameEntry := "    { TK_" + token.0 + ", " + token.1.spelling + " },\n";
        }
        ExtendText(opening, sortedTokens, NameEntry, i, nameEntry);
        content := content + nameEntry;
      }
      assert sortedTokens[..|sortedTokens|] == sortedTokens;
      content := content + TokenNamesClose;
    }
  }
}
