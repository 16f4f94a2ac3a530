/**
 * An AST node (`class Ast` and the slot macros expanded in its subclasses).
 *
 * The header is one 32-bit word (`bits_`) overlaid by `BitFields`: the kind
 * in bits 0..15, the variety in bits 16..19 and the allocator tag in bits
 * 20..21 (bit-fields allocated from the least significant bit, as GCC and
 * Clang do on little-endian targets).
 */
module AstNode {

  import opened Wrappers
  import opened AstKinds

  /** `uint32_t bits_`. */
  newtype u32 = x: int | 0 <= x < 0x1_0000_0000

  /** `bit_.kind`: the low 16 bits. */
  function KindField(bits: u32): u16
  {
    (bits as int % 0x1_0000) as u16
  }

  /** `bit_.variety`: 4 bits above the kind. */
  function VarietyField(bits: u32): (r: nat)
    ensures r < 0x10
  {
    (bits as int / 0x1_0000) % 0x10
  }

  /** `bit_.alloc`: 2 bits above the variety. */
  function AllocField(bits: u32): (r: nat)
    ensures r < 0x4
  {
    (bits as int / 0x10_0000) % 0x4
  }

  /**
   * `bit_.kind = k`: the kind field reads back as `k` and the two other
   * fields, like every bit above the kind, keep their values.
   */
  function WithKindField(bits: u32, k: u16): (r: u32)
    ensures KindField(r) == k
    ensures r as int / 0x1_0000 == bits as int / 0x1_0000
    ensures VarietyField(r) == VarietyField(bits) && AllocField(r) == AllocField(bits)
  {
    var high := bits as int / 0x1_0000;
    var r := high * 0x1_0000 + k as int;
    assert r / 0x1_0000 == high;
    assert r / 0x10_0000 == high / 0x10;
    r as u32
  }

  /**
   * A node with one slot of each form the macros generate: a child slot
   * (`NAMED_AST_PARAM`, an owning pointer that may be null), a list slot
   * (`NAMED_AST_LIST_PARAM`, an owning pointer to a list that may be null)
   * and a location slot (`NAMED_LOC_PARAM`). `C` is the child's node type, `E`
   * the list's element type and `L` the location type.
   */
  class Ast<C, E, L(0)> {
    var bits: u32
    var child: Option<C>
    var items: Option<seq<E>>
    var loc: L

    /** `Ast()`: the whole header is zero, so the kind is `Invalid`. */
    constructor Default()
      ensures bits == 0
      ensures Kind() == 0 && Variety() == 0 && Alloc() == 0
      ensures child == None && items == None
    {
      bits := 0;
      child := None;
      items := None;
    }

    /** `Ast(Kind kind)`: the header is zeroed, then the kind field set. */
    constructor (kind: u16)
      ensures bits as int == kind as int
      ensures Kind() == kind && Variety() == 0 && Alloc() == 0
      ensures child == None && items == None
    {
      bits := WithKindField(0, kind);
      child := None;
      items := None;
    }

    /** `kind()`. */
    function Kind(): u16
      reads this
    {
      KindField(bits)
    }

    function Variety(): nat
      reads this
    {
      VarietyField(bits)
    }

    function Alloc(): nat
      reads this
    {
      AllocField(bits)
    }

    /** `isName()`: the kind is one the Name block declares. */
    predicate IsName(l: Layout)
      reads this
      ensures IsName(l) <==> DeclaredCategory(l, Kind() as int) == Some(Name)
    {
      CategoryOfKind(l, Name, Kind() as int);
      CheckKind(Kind() as int, FirstMarkerValue(l, Name), LastMarkerValue(l, Name))
    }

    /** `isSpec()`: the kind is one the Spec block declares. */
    predicate IsSpec(l: Layout)
      reads this
      ensures IsSpec(l) <==> DeclaredCategory(l, Kind() as int) == Some(Spec)
    {
      CategoryOfKind(l, Spec, Kind() as int);
      CheckKind(Kind() as int, FirstMarkerValue(l, Spec), LastMarkerValue(l, Spec))
    }

    /** `isAttr()`: the kind is one the Attr block declares. */
    predicate IsAttr(l: Layout)
      reads this
      ensures IsAttr(l) <==> DeclaredCategory(l, Kind() as int) == Some(Attr)
    {
      CategoryOfKind(l, Attr, Kind() as int);
      CheckKind(Kind() as int, FirstMarkerValue(l, Attr), LastMarkerValue(l, Attr))
    }

    /** `isDecl()`: the kind is one the Decl block declares. */
    predicate IsDecl(l: Layout)
      reads this
      ensures IsDecl(l) <==> DeclaredCategory(l, Kind() as int) == Some(Decl)
    {
      CategoryOfKind(l, Decl, Kind() as int);
      CheckKind(Kind() as int, FirstMarkerValue(l, Decl), LastMarkerValue(l, Decl))
    }

    /** `isExpr()`: the kind is one the Expr block declares. */
    predicate IsExpr(l: Layout)
      reads this
      ensures IsExpr(l) <==> DeclaredCategory(l, Kind() as int) == Some(Expr)
    {
      CategoryOfKind(l, Expr, Kind() as int);
      CheckKind(Kind() as int, FirstMarkerValue(l, Expr), LastMarkerValue(l, Expr))
    }

    /** `isStmt()`: the kind is one the Stmt block declares. */
    predicate IsStmt(l: Layout)
      reads this
      ensures IsStmt(l) <==> DeclaredCategory(l, Kind() as int) == Some(Stmt)
    {
      CategoryOfKind(l, Stmt, Kind() as int);
      CheckKind(Kind() as int, FirstMarkerValue(l, Stmt), LastMarkerValue(l, Stmt))
    }

    /**
     * `set<Name>(param)`: the slot takes `param` (null clears it), the old
     * child is discarded, nothing else changes, and the node itself is
     * returned.
     */
    method SetChild(param: Option<C>) returns (self: Ast<C, E, L>)
      modifies this
      ensures self == this
      ensures child == param
      ensures bits == old(bits) && items == old(items) && loc == old(loc)
    {
      child := param;
      self := this;
    }

    /**
     * `add<Name>(param)`: a missing list is created holding just `param`;
     * an existing one gets `param` appended after its elements.
     */
    method AddItem(param: E) returns (self: Ast<C, E, L>)
      modifies this
      ensures self == this
      ensures old(items).None? ==> items == Some([param])
      ensures old(items).Some? ==> items == Some(old(items).value + [param])
      ensures bits == old(bits) && child == old(child) && loc == old(loc)
    {
      items := if items.None? then Some([param]) else Some(items.value + [param]);
      self := this;
    }

    /**
     * `merge<Name>s(param)`: a missing list is replaced by `param`, null or
     * not; an existing one gets the elements of a non-null `param` appended,
     * in order. Merging null into an existing list is up to `List::merge`,
     * so the contract leaves the list unstated in that case.
     */
    method MergeItems(param: Option<seq<E>>) returns (self: Ast<C, E, L>)
      modifies this
      ensures self == this
      ensures old(items).None? ==> items == param
      ensures old(items).Some? && param.Some? ==> items == Some(old(items).value + param.value)
      ensures bits == old(bits) && child == old(child) && loc == old(loc)
    {
      if items.None? {
        items := param;
      } else if param.Some? {
        items := Some(items.value + param.value);
      }
      self := this;
    }

    /** `set<Name>s(param)`: the list is replaced outright (null clears it). */
    method SetItems(param: Option<seq<E>>) returns (self: Ast<C, E, L>)
      modifies this
      ensures self == this
      ensures items == param
      ensures bits == old(bits) && child == old(child) && loc == old(loc)
    {
      items := param;
      self := this;
    }

    /** `set<Name>Loc(param)`: the location is overwritten. */
    method SetLoc(param: L) returns (self: Ast<C, E, L>)
      modifies this
      ensures self == this
      ensures loc == param
      ensures bits == old(bits) && child == old(child) && items == old(items)
    {
      loc := param;
      self := this;
    }

    /**
     * `NAMED_AST_PARAM__BASE__`: the virtual default on a node class that
     * has no such slot. It returns null, the "unsupported" signal, and may
     * change nothing.
     */
    method BaseSetChild(param: Option<C>) returns (r: Ast?<C, E, L>)
      ensures r == null
    {
      r := null;
    }

    /** `NAMED_AST_LIST_PARAM__BASE__`'s `set<Name>s`: null, and no change. */
    method BaseSetItems(param: Option<seq<E>>) returns (r: Ast?<C, E, L>)
      ensures r == null
    {
      r := null;
    }

    /** `NAMED_LOC_PARAM__BASE__`: null, and no change. */
    method BaseSetLoc(param: L) returns (r: Ast?<C, E, L>)
      ensures r == null
    {
      r := null;
    }
  }
}
