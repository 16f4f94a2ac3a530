/**
 * The closed enumeration of AST node kinds (`Ast::Kind`), the category
 * predicates over it and the debug names of kinds.
 *
 * The concrete kinds of each category are produced by the NAME/SPEC/ATTR/
 * DECL/EXPR/STMT `_AST_MIXIN` macros of AstDefs.h, which are not part of this
 * model. A `Layout` stands for them: it lists each category's kinds by their
 * debug names in declaration order. The enumeration is then `Invalid`, six
 * blocks each bracketed by a First and a Last marker, and `Program`,
 * `Generator`, `Filter`; as in C++, an enumerator's value is its position.
 */
module AstKinds {

  import opened Wrappers

  /** `enum class Kind : uint16_t`. */
  newtype u16 = x: int | 0 <= x < 0x1_0000

  datatype Category = Name | Spec | Attr | Decl | Expr | Stmt

  /** The categories in the order their blocks are declared. */
  const Categories: seq<Category> := [Name, Spec, Attr, Decl, Expr, Stmt]

  function Ordinal(c: Category): (i: nat)
    ensures i < |Categories| && Categories[i] == c
  {
    match c
    case Name => 0
    case Spec => 1
    case Attr => 2
    case Decl => 3
    case Expr => 4
    case Stmt => 5
  }

  lemma {:induction false} OrdinalOfCategoryAt(i: nat)
    requires i < |Categories|
    ensures Ordinal(Categories[i]) == i
  {
  }

  /** The debug names of each category's concrete kinds, in declaration order. */
  datatype Layout = Layout(names: seq<string>, specs: seq<string>, attrs: seq<string>,
                           decls: seq<string>, exprs: seq<string>, stmts: seq<string>)
  {
    function Members(c: Category): seq<string>
    {
      match c
      case Name => names
      case Spec => specs
      case Attr => attrs
      case Decl => decls
      case Expr => exprs
      case Stmt => stmts
    }
  }

  /** One enumerator of `Ast::Kind`. */
  datatype Enumerator =
    | Invalid
    | FirstMarker(cat: Category)
    | Member(cat: Category, name: string)
    | LastMarker(cat: Category)
    | Program
    | Generator
    | Filter

  /** The block of one category: its First marker, its kinds, its Last marker. */
  function Block(l: Layout, c: Category): (r: seq<Enumerator>)
    ensures |r| == |l.Members(c)| + 2
    ensures r[0] == FirstMarker(c) && r[|r| - 1] == LastMarker(c)
    ensures forall j :: 0 < j < |r| - 1 ==> r[j] == Member(c, l.Members(c)[j - 1])
  {
    var names := l.Members(c);
    [FirstMarker(c)] + seq(|names|, i requires 0 <= i < |names| => Member(c, names[i])) + [LastMarker(c)]
  }

  /** The blocks of the first `n` categories, one after the other. */
  function Blocks(l: Layout, n: nat): seq<Enumerator>
    requires n <= |Categories|
  {
    if n == 0 then [] else Blocks(l, n - 1) + Block(l, Categories[n - 1])
  }

  /** `Ast::Kind` as declared: the value of an enumerator is its index. */
  function Enumeration(l: Layout): seq<Enumerator>
  {
    [Invalid] + Blocks(l, |Categories|) + [Program, Generator, Filter]
  }

  /**
   * A layout the header can be compiled with: every enumerator fits the
   * 16-bit underlying type, and every debug name, being the stringified
   * enumerator, is non-empty.
   */
  predicate WellFormed(l: Layout)
  {
    && |Enumeration(l)| <= 0x1_0000
    && forall c: Category, j :: 0 <= j < |l.Members(c)| ==> l.Members(c)[j] != ""
  }

  /** The value of the First marker of the `n`-th block. */
  function Start(l: Layout, n: nat): nat
    requires n <= |Categories|
  {
    if n == 0 then 1 else Start(l, n - 1) + |l.Members(Categories[n - 1])| + 2
  }

  /** `Kind::First<C>Marker__`. */
  function FirstMarkerValue(l: Layout, c: Category): nat
  {
    Start(l, Ordinal(c))
  }

  /** `Kind::Last<C>Marker__`. */
  function LastMarkerValue(l: Layout, c: Category): nat
  {
    Start(l, Ordinal(c)) + |l.Members(c)| + 1
  }

  function ProgramValue(l: Layout): nat
  {
    Start(l, |Categories|)
  }

  function GeneratorValue(l: Layout): nat
  {
    ProgramValue(l) + 1
  }

  function FilterValue(l: Layout): nat
  {
    ProgramValue(l) + 2
  }

  /** `Ast::checkKind`: strictly between the two markers. */
  predicate CheckKind(kind: int, firstMarker: int, lastMarker: int)
  {
    kind > firstMarker && kind < lastMarker
  }

  /** `isName()` … `isStmt()` on a node whose kind field holds `kind`. */
  predicate InCategory(l: Layout, c: Category, kind: int)
  {
    CheckKind(kind, FirstMarkerValue(l, c), LastMarkerValue(l, c))
  }

  /** The lookup-table view: which category's block declares `kind`, if any. */
  function DeclaredCategory(l: Layout, kind: int): Option<Category>
  {
    var e := Enumeration(l);
    if 0 <= kind < |e| && e[kind].Member? then Some(e[kind].cat) else None
  }

  /**
   * `Ast::kindStr`: the switch has one case per concrete kind of the six
   * categories, returning its stringified name; everything else reaches
   * `default` and gets "".
   */
  function KindStr(l: Layout, kind: u16): string
  {
    var e := Enumeration(l);
    if (kind as int) < |e| && e[kind].Member? then e[kind].name else ""
  }

  lemma {:induction false} BlocksLength(l: Layout, n: nat)
    requires n <= |Categories|
    ensures |Blocks(l, n)| == Start(l, n) - 1
  {
    if n > 0 {
      BlocksLength(l, n - 1);
    }
  }

  lemma {:induction false} BlocksPrefix(l: Layout, m: nat, n: nat)
    requires m <= n <= |Categories|
    ensures |Blocks(l, m)| <= |Blocks(l, n)| && Blocks(l, n)[..|Blocks(l, m)|] == Blocks(l, m)
  {
    if m < n {
      BlocksPrefix(l, m, n - 1);
      assert Blocks(l, n) == Blocks(l, n - 1) + Block(l, Categories[n - 1]);
    }
  }

  lemma {:induction false} StartMonotone(l: Layout, m: nat, n: nat)
    requires m <= n <= |Categories|
    ensures Start(l, m) <= Start(l, n)
  {
    if m < n {
      StartMonotone(l, m, n - 1);
    }
  }

  /** Indexing into the enumeration past `Invalid` indexes into the blocks. */
  lemma {:induction false} EnumerationShape(l: Layout)
    ensures |Enumeration(l)| == ProgramValue(l) + 3
    ensures forall x :: 0 <= x < |Blocks(l, |Categories|)| ==> Enumeration(l)[x + 1] == Blocks(l, |Categories|)[x]
    ensures Enumeration(l)[0] == Invalid
    ensures Enumeration(l)[ProgramValue(l)] == Program
    ensures Enumeration(l)[GeneratorValue(l)] == Generator
    ensures Enumeration(l)[FilterValue(l)] == Filter
  {
    BlocksLength(l, |Categories|);
  }

  /** Inside the blocks, the `n`-th block starts right after the earlier ones. */
  lemma {:induction false} BlockInBlocks(l: Layout, n: nat, j: nat)
    requires n < |Categories|
    requires j < |Block(l, Categories[n])|
    ensures Start(l, n) + j < Start(l, |Categories|)
    ensures |Blocks(l, |Categories|)| == Start(l, |Categories|) - 1
    ensures Blocks(l, |Categories|)[Start(l, n) - 1 + j] == Block(l, Categories[n])[j]
  {
    BlocksPrefix(l, n + 1, |Categories|);
    BlocksLength(l, n);
    BlocksLength(l, |Categories|);
    StartMonotone(l, n + 1, |Categories|);
    var upTo := Blocks(l, n + 1);
    assert upTo == Blocks(l, n) + Block(l, Categories[n]);
    assert upTo[Start(l, n) - 1 + j] == Block(l, Categories[n])[j];
  }

  /** Past `Invalid`, the enumeration is the blocks. */
  lemma {:induction false} EnumerationAt(l: Layout, x: nat)
    requires x < |Blocks(l, |Categories|)|
    ensures x + 1 < |Enumeration(l)| && Enumeration(l)[x + 1] == Blocks(l, |Categories|)[x]
  {
  }

  /** The category `c` occupies the values from its First to its Last marker. */
  lemma {:induction false} BlockInEnumeration(l: Layout, c: Category, j: nat)
    requires j < |Block(l, c)|
    ensures FirstMarkerValue(l, c) + j < ProgramValue(l) < |Enumeration(l)|
    ensures Enumeration(l)[FirstMarkerValue(l, c) + j] == Block(l, c)[j]
  {
    var o := Ordinal(c);
    assert Categories[o] == c;
    BlockInBlocks(l, o, j);
    var x := Start(l, o) - 1 + j;
    EnumerationAt(l, x);
    BlocksLength(l, |Categories|);
  }

  /** Every value between `Invalid` and `Program` lies in some category's block. */
  lemma {:induction false} EnclosingBlock(l: Layout, kind: int, n: nat) returns (c: Category)
    requires n <= |Categories|
    requires 1 <= kind < Start(l, n)
    ensures Ordinal(c) < n
    ensures FirstMarkerValue(l, c) <= kind <= LastMarkerValue(l, c)
  {
    OrdinalOfCategoryAt(n - 1);
    if kind >= Start(l, n - 1) {
      c := Categories[n - 1];
    } else {
      c := EnclosingBlock(l, kind, n - 1);
    }
  }

  /**
   * The enumerator values: `Invalid` is 0, each marker sits at its value, and
   * `Program`, `Generator`, `Filter` are the last three.
   */
  lemma {:induction false} EnumeratorValues(l: Layout, c: Category)
    ensures |Enumeration(l)| == FilterValue(l) + 1
    ensures FirstMarkerValue(l, c) < LastMarkerValue(l, c) < ProgramValue(l)
    ensures Enumeration(l)[0] == Invalid
    ensures Enumeration(l)[FirstMarkerValue(l, c)] == FirstMarker(c)
    ensures Enumeration(l)[LastMarkerValue(l, c)] == LastMarker(c)
    ensures Enumeration(l)[ProgramValue(l)] == Program
    ensures Enumeration(l)[GeneratorValue(l)] == Generator
    ensures Enumeration(l)[FilterValue(l)] == Filter
  {
    BlockInEnumeration(l, c, 0);
    BlockInEnumeration(l, c, |l.Members(c)| + 1);
    EnumerationShape(l);
  }

  /**
   * The partition: `checkKind` between a category's markers holds exactly of
   * the values of that category's own concrete kinds. Hence `Invalid`, the
   * markers, `Program`, `Generator`, `Filter` and the values past `Filter`
   * belong to no category.
   */
  lemma {:induction false} CategoryOfKind(l: Layout, c: Category, kind: int)
    ensures InCategory(l, c, kind) <==> DeclaredCategory(l, kind) == Some(c)
  {
    if InCategory(l, c, kind) {
      BlockInEnumeration(l, c, kind - FirstMarkerValue(l, c));
    }
    if DeclaredCategory(l, kind) == Some(c) {
      DeclaredInsideBlocks(l, kind);
      var d := EnclosingBlock(l, kind, |Categories|);
      BlockInEnumeration(l, d, kind - FirstMarkerValue(l, d));
    }
  }

  lemma {:induction false} DeclaredInsideBlocks(l: Layout, kind: int)
    requires DeclaredCategory(l, kind).Some?
    ensures 1 <= kind < ProgramValue(l)
  {
    EnumerationShape(l);
  }

  /** At most one of `isName` … `isStmt` holds of any kind value. */
  lemma {:induction false} CategoriesExclusive(l: Layout, c1: Category, c2: Category, kind: int)
    requires InCategory(l, c1, kind) && InCategory(l, c2, kind)
    ensures c1 == c2
  {
    CategoryOfKind(l, c1, kind);
    CategoryOfKind(l, c2, kind);
  }

  /** `Invalid`, every marker and the three top-level kinds are in no category. */
  lemma {:induction false} NonMembersInNoCategory(l: Layout, c: Category, d: Category)
    ensures !InCategory(l, c, 0)
    ensures !InCategory(l, c, FirstMarkerValue(l, d)) && !InCategory(l, c, LastMarkerValue(l, d))
    ensures !InCategory(l, c, ProgramValue(l))
    ensures !InCategory(l, c, GeneratorValue(l))
    ensures !InCategory(l, c, FilterValue(l))
  {
    EnumeratorValues(l, d);
    CategoryOfKind(l, c, 0);
    CategoryOfKind(l, c, FirstMarkerValue(l, d));
    CategoryOfKind(l, c, LastMarkerValue(l, d));
    CategoryOfKind(l, c, ProgramValue(l));
    CategoryOfKind(l, c, GeneratorValue(l));
    CategoryOfKind(l, c, FilterValue(l));
  }

  /**
   * `kindStr` gives a non-empty name exactly to the kinds of the six
   * categories, namely the name declared at that position of the block, and ""
   * to every other value.
   */
  lemma {:induction false} KindStrNames(l: Layout, kind: u16)
    requires WellFormed(l)
    ensures var k := kind as int;
      && (KindStr(l, kind) != "" <==> exists c: Category :: InCategory(l, c, k))
      && forall c: Category :: InCategory(l, c, k) ==>
           KindStr(l, kind) == l.Members(c)[k - FirstMarkerValue(l, c) - 1]
  {
    var k := kind as int;
    var e := Enumeration(l);
    if k < |e| && e[k].Member? {
      var c := e[k].cat;
      CategoryOfKind(l, c, k);
      BlockInEnumeration(l, c, k - FirstMarkerValue(l, c));
    }
    forall c: Category | InCategory(l, c, k)
      ensures KindStr(l, kind) == l.Members(c)[k - FirstMarkerValue(l, c) - 1]
    {
      CategoryOfKind(l, c, k);
      BlockInEnumeration(l, c, k - FirstMarkerValue(l, c));
    }
  }
}
