/**
 Inventory rows and the two things jobs do to them: a replenishment moves quantity from current
 to allocated, a finish deducts from allocated and spills into current.
 */
module StockRows {
  import opened Common

  datatype Row = Row(allocatedQty: real, currQty: real)

  datatype Key = Key(item: Code, depot: Code, org: int)

  type Rows = map<Key, Row>

  /** One text of a requested-items list: a code, a code with a quantity, or neither. */
  datatype ItemLine = Bare(code: Code) | Counted(code: Code, qty: real) | Malformed

  datatype Item = Item(code: Code, qty: real)

  /** The documented stock level. */
  function Level(r: Row): real {
    r.allocatedQty + r.currQty
  }

  predicate NonNegative(r: Row) {
    r.allocatedQty >= 0.0 && r.currQty >= 0.0
  }

  // ------------------------------------------------------------ reading item lists

  function ParseItem(l: ItemLine): (r: Option<Item>) {
    match l
    case Bare(code) => Some(Item(code, 0.0))
    case Counted(code, qty) => Some(Item(code, qty))
    case Malformed => None
  }

  predicate WellFormed(lines: seq<ItemLine>) {
    forall l :: l in lines ==> l != Malformed
  }

  /** Sets the quantity of a code, in its old place if it has one. */
  function Put(items: seq<Item>, code: Code, qty: real): (r: seq<Item>) {
    if items == [] then [Item(code, qty)]
    else if Last(items).code == code then Init(items) + [Item(code, qty)]
    else Put(Init(items), code, qty) + [Last(items)]
  }

  /** The quantity per code; a later line for a code replaces an earlier one. */
  function ItemDict(lines: seq<ItemLine>): (r: Option<seq<Item>>) {
    if lines == [] then Some([])
    else
      match ItemDict(Init(lines))
      case None => None
      case Some(items) =>
        match ParseItem(Last(lines))
        case None => None
        case Some(item) =>
          if HasCode(items, item.code) then Some(Put(items, item.code, item.qty)) else Some(items + [item])
  }

  predicate HasCode(items: seq<Item>, code: Code) {
    exists i :: 0 <= i < |items| && items[i].code == code
  }

  predicate DistinctCodes(items: seq<Item>) {
    forall i, j :: 0 <= i < j < |items| ==> items[i].code != items[j].code
  }

  /** The quantities of one code added up. */
  function QtyOf(items: seq<Item>, code: Code): (q: real) {
    if items == [] then 0.0
    else QtyOf(Init(items), code) + (if Last(items).code == code then Last(items).qty else 0.0)
  }

  /** The quantities all lines give for one code added up. */
  function TotalOf(lines: seq<ItemLine>, code: Code): (q: real) {
    if lines == [] then 0.0
    else
      TotalOf(Init(lines), code)
      + (match ParseItem(Last(lines)) case Some(item) => (if item.code == code then item.qty else 0.0) case None => 0.0)
  }

  /** The quantity of the last line for a code. */
  function LastQty(lines: seq<ItemLine>, code: Code): (q: real) {
    if lines == [] then 0.0
    else
      match ParseItem(Last(lines))
      case Some(item) => if item.code == code then item.qty else LastQty(Init(lines), code)
      case None => LastQty(Init(lines), code)
  }

  predicate Mentions(lines: seq<ItemLine>, code: Code) {
    exists i :: 0 <= i < |lines| && lines[i] != Malformed && lines[i].code == code
  }

  /** One more line: a code with a quantity asks for that, a bare code for nothing, and both override what came before. */
  lemma OneMoreLine(lines: seq<ItemLine>, l: ItemLine, code: Code)
    ensures TotalOf(lines + [l], code) == TotalOf(lines, code) + (if l.Counted? && l.code == code then l.qty else 0.0)
    ensures LastQty(lines + [l], code) ==
      if l == Bare(code) then 0.0 else if l.Counted? && l.code == code then l.qty else LastQty(lines, code)
    ensures ItemDict(lines + [Malformed]).None?
  {
    assert Init(lines + [l]) == lines;
    assert Init(lines + [Malformed]) == lines;
  }

  lemma QtySnoc(items: seq<Item>, x: Item, code: Code)
    ensures QtyOf(items + [x], code) == QtyOf(items, code) + (if x.code == code then x.qty else 0.0)
  {
    assert Init(items + [x]) == items;
  }

  lemma {:induction false} NoCodeNoQty(items: seq<Item>, code: Code)
    requires !HasCode(items, code)
    ensures QtyOf(items, code) == 0.0
  {
    if items != [] {
      forall i | 0 <= i < |Init(items)| ensures Init(items)[i].code != code { assert items[i].code != code; }
      assert Last(items) == items[|items| - 1];
      NoCodeNoQty(Init(items), code);
    }
  }

  /** In a list of distinct codes, putting a quantity changes that code's quantity and no other. */
  lemma {:induction false} PutKeeps(items: seq<Item>, code: Code, qty: real)
    requires DistinctCodes(items) && HasCode(items, code)
    ensures |Put(items, code, qty)| == |items|
    ensures forall i :: 0 <= i < |items| ==> Put(items, code, qty)[i] == if items[i].code == code then Item(code, qty) else items[i]
  {
    if Last(items).code != code {
      var i :| 0 <= i < |items| && items[i].code == code;
      assert Init(items)[i].code == code;
      PutKeeps(Init(items), code, qty);
    }
  }

  lemma {:induction false} QtyOfDistinct(items: seq<Item>, i: nat)
    requires DistinctCodes(items) && i < |items|
    ensures QtyOf(items, items[i].code) == items[i].qty
  {
    if i < |items| - 1 {
      QtyOfDistinct(Init(items), i);
    } else {
      assert !HasCode(Init(items), items[i].code);
      NoCodeNoQty(Init(items), items[i].code);
    }
  }

  /** The dictionary has every code once, with the quantity of that code's last line. */
  lemma {:induction false} DictIsLastLine(lines: seq<ItemLine>, code: Code)
    requires ItemDict(lines).Some?
    ensures WellFormed(lines) && DistinctCodes(ItemDict(lines).value)
    ensures HasCode(ItemDict(lines).value, code) <==> Mentions(lines, code)
    ensures QtyOf(ItemDict(lines).value, code) == LastQty(lines, code)
  {
    if lines != [] {
      var init := Init(lines);
      var items, item := ItemDict(init).value, ParseItem(Last(lines)).value;
      DictIsLastLine(init, code);
      DictIsLastLine(init, item.code);
      assert lines == init + [Last(lines)];
      MentionsSnoc(init, Last(lines), code);
      if HasCode(items, item.code) {
        PutDistinct(items, item.code, item.qty, code);
      } else {
        AppendDistinct(items, item, code);
      }
    }
  }

  lemma MentionsSnoc(lines: seq<ItemLine>, l: ItemLine, code: Code)
    ensures Mentions(lines + [l], code) <==> Mentions(lines, code) || (l != Malformed && l.code == code)
  {
    var all := lines + [l];
    assert all[|lines|] == l;
    if Mentions(lines, code) {
      var i :| 0 <= i < |lines| && lines[i] != Malformed && lines[i].code == code;
      assert all[i] == lines[i];
    }
  }

  lemma PutDistinct(items: seq<Item>, code: Code, qty: real, c: Code)
    requires DistinctCodes(items) && HasCode(items, code)
    ensures DistinctCodes(Put(items, code, qty))
    ensures HasCode(Put(items, code, qty), c) <==> HasCode(items, c)
    ensures QtyOf(Put(items, code, qty), c) == if c == code then qty else QtyOf(items, c)
  {
    var put := Put(items, code, qty);
    PutKeeps(items, code, qty);
    if HasCode(items, c) {
      var i :| 0 <= i < |items| && items[i].code == c;
      assert put[i].code == c;
      QtyOfDistinct(items, i);
      QtyOfDistinct(put, i);
    } else {
      NoCodeNoQty(items, c);
      NoCodeNoQty(put, c);
    }
  }

  lemma AppendDistinct(items: seq<Item>, item: Item, c: Code)
    requires DistinctCodes(items) && !HasCode(items, item.code)
    ensures DistinctCodes(items + [item])
    ensures HasCode(items + [item], c) <==> HasCode(items, c) || c == item.code
    ensures QtyOf(items + [item], c) == if c == item.code then item.qty else QtyOf(items, c)
  {
    var more := items + [item];
    QtySnoc(items, item, c);
    NoCodeNoQty(items, item.code);
    assert more[|items|] == item;
    if HasCode(items, c) {
      var i :| 0 <= i < |items| && items[i].code == c;
      assert more[i].code == c;
    }
  }

  /** Only a malformed line keeps a list from being read. */
  lemma {:induction false} WellFormedHasDict(lines: seq<ItemLine>)
    ensures ItemDict(lines).Some? <==> WellFormed(lines)
  {
    if lines != [] {
      var init, last := Init(lines), Last(lines);
      WellFormedHasDict(init);
      assert lines == init + [last];
      assert last in lines && forall l :: l in init ==> l in lines;
    }
  }

  /** What the lines for a code that come before its last one add up to. */
  function Overridden(lines: seq<ItemLine>, code: Code): (q: real) {
    if lines == [] then 0.0
    else if Last(lines) != Malformed && Last(lines).code == code then TotalOf(Init(lines), code)
    else Overridden(Init(lines), code)
  }

  /**
   A finish deducts what the last line of a code says, a replenishment moves what all its lines
   say: they agree on a code exactly when the earlier lines for it add up to nothing.
   */
  lemma OverriddenLinesAreLost(lines: seq<ItemLine>, code: Code)
    requires ItemDict(lines).Some?
    ensures QtyOf(ItemDict(lines).value, code) == TotalOf(lines, code) <==> Overridden(lines, code) == 0.0
  {
    DictIsLastLine(lines, code);
    LastAndOverridden(lines, code);
  }

  lemma {:induction false} LastAndOverridden(lines: seq<ItemLine>, code: Code)
    ensures TotalOf(lines, code) == Overridden(lines, code) + LastQty(lines, code)
  {
    if lines != [] { LastAndOverridden(Init(lines), code); }
  }

  // ------------------------------------------------------------ deducting

  function Deduct(r: Row, q: real): (r': Row) {
    var allocatedQty := r.allocatedQty - q;
    if allocatedQty < 0.0 then Row(0.0, r.currQty + allocatedQty) else Row(allocatedQty, r.currQty)
  }

  /** A deduction of q from the row goes through. */
  predicate Enough(r: Row, q: real) {
    Deduct(r, q).currQty >= 0.0
  }

  /** Deducting lowers the level by exactly the quantity, never leaves a negative allocation, and spills only what allocation lacks. */
  lemma DeductTakes(r: Row, q: real)
    ensures Level(Deduct(r, q)) == Level(r) - q
    ensures Deduct(r, q).allocatedQty >= 0.0
    ensures Deduct(r, q).currQty == r.currQty <==> q <= r.allocatedQty
    ensures Deduct(r, q).currQty != r.currQty ==> Deduct(r, q).allocatedQty == 0.0
    ensures Enough(r, q) <==> if q <= r.allocatedQty then r.currQty >= 0.0 else q <= r.allocatedQty + r.currQty
    ensures NonNegative(r) ==> (Enough(r, q) <==> q <= r.allocatedQty + r.currQty)
  {
  }

  /** Deducting p and then q is deducting p + q exactly when q gives nothing back that p has spilled. */
  lemma DeductionsAdd(r: Row, p: real, q: real)
    ensures Deduct(Deduct(r, p), q) == Deduct(r, p + q) <==> p <= r.allocatedQty || q >= 0.0
  {
  }

  function DeductAll(r: Row, qs: seq<real>): (r': Row) {
    if qs == [] then r else Deduct(DeductAll(r, Init(qs)), Last(qs))
  }

  function Sum(qs: seq<real>): (q: real) {
    if qs == [] then 0.0 else Sum(Init(qs)) + Last(qs)
  }

  /** Line by line or added up, in any order: the row ends up the same. */
  lemma {:induction false} DeductingLineByLine(r: Row, qs: seq<real>)
    requires r.allocatedQty >= 0.0 && forall i :: 0 <= i < |qs| ==> qs[i] >= 0.0
    ensures DeductAll(r, qs) == Deduct(r, Sum(qs))
  {
    if qs != [] {
      DeductingLineByLine(r, Init(qs));
      DeductionsAdd(r, Sum(Init(qs)), Last(qs));
    }
  }

  // ------------------------------------------------------------ finishing

  /** Deducts every item from its row of one depot; none if a row is missing or runs short. */
  function Finish(rows: Rows, items: seq<Item>, depot: Code, org: int): (r: Option<Rows>) {
    if items == [] then Some(rows)
    else
      match Finish(rows, Init(items), depot, org)
      case None => None
      case Some(rows') =>
        var key, q := Key(Last(items).code, depot, org), Last(items).qty;
        if key !in rows' || !Enough(rows'[key], q) then None else Some(rows'[key := Deduct(rows'[key], q)])
  }

  /** What a finish leaves in a row. */
  function FinishedRow(rows: Rows, items: seq<Item>, depot: Code, org: int, key: Key): Row
    requires key in rows
  {
    if key.depot == depot && key.org == org && HasCode(items, key.item)
    then Deduct(rows[key], QtyOf(items, key.item))
    else rows[key]
  }

  ghost predicate IsFinished(rows: Rows, items: seq<Item>, depot: Code, org: int, rows': Rows) {
    && rows'.Keys == rows.Keys
    && forall key :: key in rows ==> rows'[key] == FinishedRow(rows, items, depot, org, key)
  }

  ghost predicate CanFinish(rows: Rows, items: seq<Item>, depot: Code, org: int) {
    forall i :: 0 <= i < |items| ==>
      Key(items[i].code, depot, org) in rows && Enough(rows[Key(items[i].code, depot, org)], items[i].qty)
  }

  /** A finish goes through exactly when every item has a row with enough, and then changes just those rows. */
  lemma {:induction false} FinishIsExact(rows: Rows, items: seq<Item>, depot: Code, org: int)
    requires DistinctCodes(items)
    ensures Finish(rows, items, depot, org).Some? <==> CanFinish(rows, items, depot, org)
    ensures Finish(rows, items, depot, org).Some? ==> IsFinished(rows, items, depot, org, Finish(rows, items, depot, org).value)
  {
    if items != [] {
      var init, last := Init(items), Last(items);
      FinishIsExact(rows, init, depot, org);
      assert !HasCode(init, last.code);
      assert items == init + [last];
      CanFinishSnoc(rows, init, last, depot, org);
      if Finish(rows, init, depot, org).Some? {
        var rows' := Finish(rows, init, depot, org).value;
        var key := Key(last.code, depot, org);
        assert key in rows ==> rows'[key] == rows[key];
        if Finish(rows, items, depot, org).Some? {
          NoCodeNoQty(init, last.code);
          forall k | k in rows ensures rows'[key := Deduct(rows'[key], last.qty)][k] == FinishedRow(rows, items, depot, org, k) {
            QtySnoc(init, last, k.item);
            HasCodeSnoc(init, last, k.item);
          }
        }
      }
    }
  }

  lemma HasCodeSnoc(items: seq<Item>, x: Item, code: Code)
    ensures HasCode(items + [x], code) <==> HasCode(items, code) || x.code == code
  {
    assert (items + [x])[|items|] == x;
    if HasCode(items, code) {
      var i :| 0 <= i < |items| && items[i].code == code;
      assert (items + [x])[i].code == code;
    }
  }

  lemma CanFinishSnoc(rows: Rows, items: seq<Item>, x: Item, depot: Code, org: int)
    ensures CanFinish(rows, items + [x], depot, org) <==>
      CanFinish(rows, items, depot, org) && Key(x.code, depot, org) in rows && Enough(rows[Key(x.code, depot, org)], x.qty)
  {
    var all := items + [x];
    assert all[|items|] == x;
    assert forall i :: 0 <= i < |items| ==> all[i] == items[i];
  }

  /** After a finish, levels are down by the quantities, and every row it touched is non-negative. */
  lemma FinishTakes(rows: Rows, items: seq<Item>, depot: Code, org: int, key: Key)
    requires DistinctCodes(items) && Finish(rows, items, depot, org).Some? && key in rows
    ensures key in Finish(rows, items, depot, org).value
    ensures Level(Finish(rows, items, depot, org).value[key])
         == Level(rows[key]) - (if key.depot == depot && key.org == org then QtyOf(items, key.item) else 0.0)
    ensures NonNegative(rows[key]) || (key.depot == depot && key.org == org && HasCode(items, key.item)) ==>
      NonNegative(Finish(rows, items, depot, org).value[key])
  {
    FinishIsExact(rows, items, depot, org);
    if key.depot == depot && key.org == org {
      if HasCode(items, key.item) {
        var i :| 0 <= i < |items| && items[i].code == key.item;
        QtyOfDistinct(items, i);
        assert Key(items[i].code, depot, org) == key;
      } else {
        NoCodeNoQty(items, key.item);
      }
    }
  }

  // ------------------------------------------------------------ replenishing

  function Move(r: Row, q: real): Row {
    Row(r.allocatedQty + q, r.currQty - q)
  }

  /** Moves the quantity of every line; none if a line is malformed or a row is missing. A shortage stops nothing. */
  function Replenish(rows: Rows, lines: seq<ItemLine>, depot: Code, org: int): (r: Option<Rows>) {
    if lines == [] then Some(rows)
    else
      match Replenish(rows, Init(lines), depot, org)
      case None => None
      case Some(rows') =>
        match ParseItem(Last(lines))
        case None => None
        case Some(item) =>
          var key := Key(item.code, depot, org);
          if key !in rows' then None else Some(rows'[key := Move(rows'[key], item.qty)])
  }

  /** A replenishment moves the sum of all lines of an item, keeps every level and touches no other row. */
  lemma {:induction false} ReplenishMoves(rows: Rows, lines: seq<ItemLine>, depot: Code, org: int, key: Key)
    requires Replenish(rows, lines, depot, org).Some?
    ensures Replenish(rows, lines, depot, org).value.Keys == rows.Keys
    ensures key in rows ==>
      Replenish(rows, lines, depot, org).value[key] == if key.depot == depot && key.org == org then Move(rows[key], TotalOf(lines, key.item)) else rows[key]
    ensures key in rows && key.depot == depot && key.org == org ==>
      var row := Replenish(rows, lines, depot, org).value[key];
      && row.allocatedQty == rows[key].allocatedQty + TotalOf(lines, key.item)
      && row.currQty == rows[key].currQty - TotalOf(lines, key.item)
    ensures key in rows ==> Level(Replenish(rows, lines, depot, org).value[key]) == Level(rows[key])
  {
    if lines != [] {
      ReplenishMoves(rows, Init(lines), depot, org, key);
    }
  }

  /** Every line can be read, and every code in it has a row. */
  ghost predicate CanMove(rows: Rows, lines: seq<ItemLine>, depot: Code, org: int) {
    WellFormed(lines) && forall code :: Mentions(lines, code) ==> Key(code, depot, org) in rows
  }

  lemma CanMoveSnoc(rows: Rows, lines: seq<ItemLine>, l: ItemLine, depot: Code, org: int)
    ensures CanMove(rows, lines + [l], depot, org) <==>
      CanMove(rows, lines, depot, org) && l != Malformed && Key(l.code, depot, org) in rows
  {
    var all := lines + [l];
    forall code ensures Mentions(all, code) <==> Mentions(lines, code) || (l != Malformed && l.code == code) {
      MentionsSnoc(lines, l, code);
    }
    assert l in all && forall x :: x in lines ==> x in all;
    if CanMove(rows, all, depot, org) { assert Mentions(all, l.code); }
  }

  /** A replenishment goes through, whatever the quantities, exactly when every line can be read and has its row. */
  lemma {:induction false} ReplenishSucceedsIff(rows: Rows, lines: seq<ItemLine>, depot: Code, org: int)
    ensures Replenish(rows, lines, depot, org).Some? <==> CanMove(rows, lines, depot, org)
  {
    if lines != [] {
      var init, last := Init(lines), Last(lines);
      ReplenishSucceedsIff(rows, init, depot, org);
      assert lines == init + [last];
      CanMoveSnoc(rows, init, last, depot, org);
      if Replenish(rows, init, depot, org).Some? && last != Malformed {
        ReplenishMoves(rows, init, depot, org, Key(last.code, depot, org));
      }
    }
  }

  /** What stays non-negative: a row from which no more is moved than it has, either way. */
  lemma ReplenishKeepsSign(rows: Rows, lines: seq<ItemLine>, depot: Code, org: int, key: Key)
    requires Replenish(rows, lines, depot, org).Some? && key in rows && key.depot == depot && key.org == org
    ensures key in Replenish(rows, lines, depot, org).value
    ensures NonNegative(Replenish(rows, lines, depot, org).value[key]) <==>
      -rows[key].allocatedQty <= TotalOf(lines, key.item) <= rows[key].currQty
  {
    ReplenishMoves(rows, lines, depot, org, key);
  }

  /**
   A prior replenishment of a non-negative row decides no finish, whatever the quantity, exactly
   when the row had enough to move.
   */
  lemma ReplenishDecidesNothing(r: Row, p: real)
    requires NonNegative(r)
    ensures (forall q :: Enough(Move(r, p), q) <==> Enough(r, q)) <==> p <= r.currQty
  {
    if p > r.currQty {
      var q := r.allocatedQty + r.currQty;
      assert Enough(r, q) && !Enough(Move(r, p), q);
    }
  }

  /** Sufficient replenishment changes no finish. */
  lemma FinishAfterReplenish(rows: Rows, lines: seq<ItemLine>, depot: Code, org: int, items: seq<Item>, depot': Code, org': int)
    requires Replenish(rows, lines, depot, org).Some? && DistinctCodes(items)
    requires forall key :: key in rows ==> NonNegative(rows[key])
    requires forall key :: key in rows && key.depot == depot && key.org == org ==> TotalOf(lines, key.item) <= rows[key].currQty
    ensures Finish(Replenish(rows, lines, depot, org).value, items, depot', org').Some? <==> Finish(rows, items, depot', org').Some?
  {
    var rows' := Replenish(rows, lines, depot, org).value;
    FinishIsExact(rows, items, depot', org');
    FinishIsExact(rows', items, depot', org');
    forall i | 0 <= i < |items|
      ensures var key := Key(items[i].code, depot', org');
        (key in rows' <==> key in rows) && (key in rows ==> (Enough(rows'[key], items[i].qty) <==> Enough(rows[key], items[i].qty)))
    {
      ReplenishMoves(rows, lines, depot, org, Key(items[i].code, depot', org'));
    }
  }
}
