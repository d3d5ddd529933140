/** The PPE requirement calculator: the item and preset tables, the computation behind the
    "Calculate" button, the "Reset" button and the preset selector. Rates are kept exactly as
    whole thousandths of an item per worker per day. */
module Calculator {
  import opened Wrappers
  import Catalogue

  /** An equipment item definition; `rateMilli` is the per-worker-per-day rate times 1000. */
  datatype Item = Item(name: string, desc: string, unit: string, rateMilli: nat)

  /** The item table in declaration order, keyed by the checkbox value of each item. */
  const Items: seq<(string, Item)> := [
    ("mask", Item("Face Masks", "Surgical/N95 masks", "pieces", 2000)),
    ("gloves", Item("Gloves", "Disposable latex/nitrile gloves", "pairs", 2000)),
    ("gown", Item("Disposable Gowns", "Protective gowns/coveralls", "pieces", 500)),
    ("faceShield", Item("Face Shields", "Reusable face shields", "pieces", 200)),
    ("goggles", Item("Safety Goggles", "Protective eyewear", "pairs", 100)),
    ("respirator", Item("Respirators", "Half/full face respirators", "pieces", 50)),
    ("harness", Item("Safety Harness", "Full body harness", "pieces", 10)),
    ("helmet", Item("Safety Helmet", "Hard hats/helmets", "pieces", 10)),
    ("shoes", Item("Safety Shoes", "Steel-toe boots", "pairs", 5))
  ]

  /** The preset table; "custom" is empty because its items come from the checkboxes. */
  const Presets: seq<(string, seq<string>)> := [
    ("basic", ["mask", "gloves", "gown"]),
    ("full", ["mask", "gloves", "gown", "faceShield", "goggles"]),
    ("respiratory", ["mask", "gloves", "respirator", "goggles"]),
    ("fall", ["helmet", "harness", "shoes", "gloves"]),
    ("custom", [])
  ]

  /** Property lookup `table[key]`: the value of the first entry with that key, or `None` when
      no entry has it. An object literal with a repeated key keeps the last value instead; the
      two agree on `Items` and `Presets`, which list no key twice (`DistinctItemKeys` states it
      for the item table). */
  function Lookup<V>(table: seq<(string, V)>, key: string): (r: Option<V>)
    ensures r.Some? ==> exists i :: 0 <= i < |table| && table[i] == (key, r.value)
    ensures r.None? <==> forall i :: 0 <= i < |table| ==> table[i].0 != key
  {
    if table == [] then None
    else if table[0].0 == key then Some(table[0].1)
    else
      var r := Lookup(table[1..], key);
      assert forall i :: 1 <= i < |table| ==> table[i] == table[1..][i - 1];
      r
  }

  predicate Known(key: string) {
    Lookup(Items, key).Some?
  }

  /** `Math.ceil(workers * rate * workDays)` computed exactly: the least integer that is at least
      the exact product, with the rate given in thousandths. */
  function Quantity(workers: int, rateMilli: nat, workDays: int): (q: int)
    ensures 1000 * (q - 1) < workers * rateMilli * workDays <= 1000 * q
  {
    (workers * rateMilli * workDays + 999) / 1000
  }

  /** One row of the results table. */
  datatype Line = Line(name: string, desc: string, qty: int, unit: string, rateMilli: nat)

  datatype Calculation = Calculation(lines: seq<Line>, total: int)

  datatype CalcError =
    | EmptySelection            // the "select at least one PPE item" alert
    | UnknownItem(key: string)  // `ppeItems[key]` is undefined and reading its rate throws
    | UnknownPreset(name: string)  // `ppePresets[name]` is undefined and reading its length throws

  /** The row pushed for one item: its texts and rate, and the monthly quantity rounded up. */
  function LineFor(item: Item, workers: int, workDays: int): (r: Line)
    ensures r.name == item.name && r.desc == item.desc && r.unit == item.unit
    ensures r.rateMilli == item.rateMilli
    ensures 1000 * (r.qty - 1) < workers * item.rateMilli * workDays <= 1000 * r.qty
  {
    Line(item.name, item.desc, Quantity(workers, item.rateMilli, workDays), item.unit, item.rateMilli)
  }

  /** The sum of the quantities of `lines`, added from the right. When every row needs at least
      one unit, the sum is at least the number of rows. */
  function SumQty(lines: seq<Line>): (r: int)
    ensures (forall i :: 0 <= i < |lines| ==> lines[i].qty >= 1) ==> r >= |lines|
  {
    if lines == [] then 0 else SumQty(lines[..|lines| - 1]) + lines[|lines| - 1].qty
  }

  /** Position `i` holds the first key of `selection` that is not in the table `items`. */
  predicate FirstUnknownAt(items: seq<(string, Item)>, selection: seq<string>, i: int) {
    && 0 <= i < |selection|
    && Lookup(items, selection[i]).None?
    && forall j :: 0 <= j < i ==> Lookup(items, selection[j]).Some?
  }

  /** The rows pushed by the `forEach` over the selected keys, with `items` as the item table:
      one row per key, in selection order. A key missing from the table aborts the whole
      computation. */
  function Rows(items: seq<(string, Item)>, workers: int, workDays: int, selection: seq<string>)
    : (r: Result<seq<Line>, CalcError>)
    ensures r.Success? <==> forall i :: 0 <= i < |selection| ==> Lookup(items, selection[i]).Some?
    ensures r.Success? ==>
      && |r.value| == |selection|
      && forall i :: 0 <= i < |selection| ==>
           r.value[i] == LineFor(Lookup(items, selection[i]).value, workers, workDays)
    ensures r.Failure? ==>
      exists i :: FirstUnknownAt(items, selection, i) && r.error == UnknownItem(selection[i])
  {
    if selection == [] then Success([])
    else
      match Lookup(items, selection[0])
      case None =>
        assert FirstUnknownAt(items, selection, 0);
        Failure(UnknownItem(selection[0]))
      case Some(item) =>
        var rest := Rows(items, workers, workDays, selection[1..]);
        assert forall i :: 1 <= i < |selection| ==> selection[i] == selection[1..][i - 1];
        match rest
        case Failure(e) =>
          var i :| FirstUnknownAt(items, selection[1..], i) && e == UnknownItem(selection[1..][i]);
          assert FirstUnknownAt(items, selection, i + 1);
          Failure(e)
        case Success(lines) =>
          Success([LineFor(item, workers, workDays)] + lines)
  }

  /** The running total `totalMonthly`, adding the rows' quantities from left to right onto
      `acc`: it equals `acc` plus the sum of the quantities. */
  function RunningTotal(lines: seq<Line>, acc: int): (t: int)
    ensures t == acc + SumQty(lines)
  {
    if lines == [] then acc
    else
      SumQtyFront(lines);
      RunningTotal(lines[1..], acc + lines[0].qty)
  }

  /** The sum of the quantities splits off the first row. */
  lemma {:induction false} SumQtyFront(lines: seq<Line>)
    requires lines != []
    ensures SumQty(lines) == lines[0].qty + SumQty(lines[1..])
  {
    if |lines| > 1 {
      SumQtyFront(lines[..|lines| - 1]);
      assert lines[..|lines| - 1][1..] == lines[1..][..|lines| - 2];
    }
  }

  /** The computation behind the "Calculate" button for already-read inputs. */
  function Calculate(workers: int, workDays: int, selection: seq<string>): (r: Result<Calculation, CalcError>)
    ensures selection == [] ==> r == Failure(EmptySelection)
    ensures r.Success? <==> selection != [] && forall i :: 0 <= i < |selection| ==> Known(selection[i])
    ensures r.Success? ==>
      && |r.value.lines| == |selection|
      && (forall i :: 0 <= i < |selection| ==>
            r.value.lines[i] == LineFor(Lookup(Items, selection[i]).value, workers, workDays))
      && r.value.total == SumQty(r.value.lines)
    ensures r.Failure? && selection != [] ==>
      exists i :: FirstUnknownAt(Items, selection, i) && r.error == UnknownItem(selection[i])
  {
    if |selection| == 0 then Failure(EmptySelection)
    else
      match Rows(Items, workers, workDays, selection)
      case Failure(e) => Failure(e)
      case Success(lines) => Success(Calculation(lines, RunningTotal(lines, 0)))
  }

  /** Every key of every preset names an item of the table. */
  lemma PresetKeysKnown()
    ensures forall i, j :: 0 <= i < |Presets| && 0 <= j < |Presets[i].1| ==> Known(Presets[i].1[j])
  {
    forall i | 0 <= i < |Presets|
      ensures forall j :: 0 <= j < |Presets[i].1| ==> Known(Presets[i].1[j])
    {
      if i == 0 {
        KeysKnown(Presets[0].1, [0, 1, 2]);
      } else if i == 1 {
        KeysKnown(Presets[1].1, [0, 1, 2, 3, 4]);
      } else if i == 2 {
        KeysKnown(Presets[2].1, [0, 1, 5, 4]);
      } else if i == 3 {
        KeysKnown(Presets[3].1, [7, 6, 8, 1]);
      }
    }
  }

  /** Keys that are the keys of the table entries at `positions` are all known. */
  lemma KeysKnown(keys: seq<string>, positions: seq<int>)
    requires |keys| == |positions|
    requires forall j :: 0 <= j < |positions| ==> 0 <= positions[j] < |Items| && keys[j] == Items[positions[j]].0
    ensures forall j :: 0 <= j < |keys| ==> Known(keys[j])
  {
    ItemKeysKnown();
  }

  /** The "custom" preset holds no keys of its own. */
  lemma CustomPresetEmpty()
    ensures Lookup(Presets, "custom") == Some([])
  {
    assert Presets[0].0 != "custom" && Presets[1].0 != "custom";
    assert Presets[2].0 != "custom" && Presets[3].0 != "custom";
  }

  /** Every key of the item table is found by a lookup. */
  lemma ItemKeysKnown()
    ensures forall n :: 0 <= n < |Items| ==> Known(Items[n].0)
  {
  }

  /** With positive workers, days and rate, the quantity is at least one. */
  lemma QuantityPositive(workers: int, rateMilli: nat, workDays: int)
    requires workers > 0 && workDays > 0 && rateMilli > 0
    ensures Quantity(workers, rateMilli, workDays) >= 1
  {
    assert workers * rateMilli >= 1;
    assert workers * rateMilli * workDays >= 1;
  }

  /** With a positive worker count and day count, every computed row asks for at least one
      item, because every rate in the table is positive. */
  lemma QuantitiesPositive(workers: int, workDays: int, selection: seq<string>)
    requires workers > 0 && workDays > 0
    requires Calculate(workers, workDays, selection).Success?
    ensures forall i :: 0 <= i < |selection| ==> Calculate(workers, workDays, selection).value.lines[i].qty >= 1
    ensures Calculate(workers, workDays, selection).value.total >= |selection|
  {
    var lines := Calculate(workers, workDays, selection).value.lines;
    forall i | 0 <= i < |selection|
      ensures lines[i].qty >= 1
    {
      var item := Lookup(Items, selection[i]).value;
      var n :| 0 <= n < |Items| && Items[n] == (selection[i], item);
      assert item.rateMilli > 0 by { RatesPositive(n); }
      QuantityPositive(workers, item.rateMilli, workDays);
    }
  }

  lemma RatesPositive(n: int)
    requires 0 <= n < |Items|
    ensures Items[n].1.rateMilli > 0
  {
  }

  /** The worked example of the calculator: the basic preset for 10 workers over 22 days needs
      440 masks, 440 pairs of gloves and 110 gowns, 990 items in all. */
  lemma BasicPresetExample()
    ensures var r := Calculate(10, 22, ["mask", "gloves", "gown"]);
      && r.Success?
      && |r.value.lines| == 3
      && r.value.lines[0].qty == 440 && r.value.lines[1].qty == 440 && r.value.lines[2].qty == 110
      && r.value.total == 990
  {
    var sel := [Items[0].0, Items[1].0, Items[2].0];
    assert sel == ["mask", "gloves", "gown"];
    BasicSelection(sel);
    var lines := Calculate(10, 22, sel).value.lines;
    QuantityExact(10, 2000, 22, 440);
    QuantityExact(10, 500, 22, 110);
    SumOfThree(lines);
  }

  /** The basic preset's keys, read from the item table, give the rows of its first three
      items. The keys are taken from the table rather than written out so that each lookup is
      settled by `LookupAt` instead of by comparing string literals. */
  lemma BasicSelection(sel: seq<string>)
    requires sel == [Items[0].0, Items[1].0, Items[2].0]
    ensures Calculate(10, 22, sel).Success?
    ensures var lines := Calculate(10, 22, sel).value.lines;
      |lines| == 3 && forall i :: 0 <= i < 3 ==> lines[i] == LineFor(Items[i].1, 10, 22)
  {
    LookupAt(sel[0], 0);
    LookupAt(sel[1], 1);
    LookupAt(sel[2], 2);
    ThreeRows(Items, 10, 22, sel, Items[0].1, Items[1].1, Items[2].1);
  }

  /** Three keys found in the table give the three rows of their items, in order. */
  lemma ThreeRows(items: seq<(string, Item)>, workers: int, workDays: int, sel: seq<string>, a: Item, b: Item, c: Item)
    requires |sel| == 3
    requires Lookup(items, sel[0]) == Some(a) && Lookup(items, sel[1]) == Some(b) && Lookup(items, sel[2]) == Some(c)
    ensures Rows(items, workers, workDays, sel) ==
            Success([LineFor(a, workers, workDays), LineFor(b, workers, workDays), LineFor(c, workers, workDays)])
  {
    var r := Rows(items, workers, workDays, sel);
    assert forall i :: 0 <= i < 3 ==> Lookup(items, sel[i]).Some?;
    assert r.value[0] == LineFor(a, workers, workDays);
    assert r.value[1] == LineFor(b, workers, workDays);
    assert r.value[2] == LineFor(c, workers, workDays);
    assert r.value == [LineFor(a, workers, workDays), LineFor(b, workers, workDays), LineFor(c, workers, workDays)];
  }

  lemma SumOfThree(lines: seq<Line>)
    requires |lines| == 3
    ensures SumQty(lines) == lines[0].qty + lines[1].qty + lines[2].qty
  {
    assert lines[..1][..0] == [];
    assert SumQty(lines[..1]) == lines[0].qty;
    assert lines[..2][..1] == lines[..1];
    assert SumQty(lines[..2]) == lines[0].qty + lines[1].qty;
  }

  /** When the exact product is a whole number of items, no rounding happens. */
  lemma QuantityExact(workers: int, rateMilli: nat, workDays: int, q: int)
    requires workers * rateMilli * workDays == 1000 * q
    ensures Quantity(workers, rateMilli, workDays) == q
  {
  }

  /** A single helmet for one worker on one day rounds 0.01 up to one helmet. */
  lemma SingleHelmetExample()
    ensures Calculate(1, 1, ["helmet"]).Success?
    ensures Calculate(1, 1, ["helmet"]).value.total == 1
  {
    var sel := [Items[7].0];
    KeysKnown(sel, [7]);
    LookupAt(sel[0], 7);
    var r := Calculate(1, 1, sel);
    assert r.value.lines[0].qty == 1;
    assert r.value.lines[..0] == [];
    assert sel == ["helmet"];
  }

  /** Looking up the key of entry `n` finds entry `n`'s item (the keys are distinct). */
  lemma LookupAt(key: string, n: int)
    requires 0 <= n < |Items| && Items[n].0 == key
    ensures Lookup(Items, key) == Some(Items[n].1)
  {
    var r := Lookup(Items, key);
    var i :| 0 <= i < |Items| && Items[i] == (key, r.value);
    assert i == n by { DistinctItemKeys(i, n); }
  }

  lemma DistinctItemKeys(i: int, n: int)
    requires 0 <= i < |Items| && 0 <= n < |Items| && Items[i].0 == Items[n].0
    ensures i == n
  {
    var k := Items[i].0;
    assert |k| >= 4;
    assert k[0] == Items[n].0[0] && k[1] == Items[n].0[1] && |k| == |Items[n].0|;
  }

  /** `parseInt(field.value) || fallback`: a reading of NaN (`None`) or 0 gives the fallback. */
  function InputCount(parsed: Option<int>, fallback: int): (n: int)
    ensures parsed.Some? && parsed.value != 0 ==> n == parsed.value
    ensures parsed.None? || parsed.value == 0 ==> n == fallback
    ensures fallback != 0 ==> n != 0
  {
    if parsed.None? || parsed.value == 0 then fallback else parsed.value
  }

  /** An item checkbox of the custom section. */
  datatype Checkbox = Checkbox(value: string, checked: bool)

  /** What the results panel shows after a successful calculation. */
  datatype Shown = Shown(lines: seq<Line>, workers: int, workDays: int, total: int)

  /** The calculator form: the `parseInt` reading of the two number fields, the preset
      selector, whether the custom section is visible, the checkboxes in document order, and the
      results panel (`None` while the placeholder is displayed). */
  datatype Form = Form(
    workers: Option<int>,
    workDays: Option<int>,
    ppeType: string,
    customVisible: bool,
    boxes: seq<Checkbox>,
    shown: Option<Shown>)

  /** The values of all boxes, in document order. */
  function BoxValues(boxes: seq<Checkbox>): seq<string> {
    seq(|boxes|, i requires 0 <= i < |boxes| => boxes[i].value)
  }

  /** Checked boxes carrying the values `vs`, in the same order. */
  function AsChecked(vs: seq<string>): seq<Checkbox> {
    seq(|vs|, i requires 0 <= i < |vs| => Checkbox(vs[i], true))
  }

  /** The values of the checked boxes, in document order: `querySelectorAll(':checked')` keeps
      document order and repeats, so each value appears once per checked box carrying it. The
      boxes that the result describes, all checked, occur in `boxes` in that order. */
  function CheckedValues(boxes: seq<Checkbox>): (r: seq<string>)
    ensures |r| <= |boxes|
    ensures Catalogue.IsSubsequence(r, BoxValues(boxes))
    ensures Catalogue.IsSubsequence(AsChecked(r), boxes)
    ensures forall v :: multiset(r)[v] == multiset(boxes)[Checkbox(v, true)]
    ensures forall v :: v in r <==> Checkbox(v, true) in boxes
  {
    if boxes == [] then []
    else
      var rest := CheckedValues(boxes[1..]);
      var r := if boxes[0].checked then [boxes[0].value] + rest else rest;
      CheckedOrderStep(boxes, rest, r);
      CheckedBoxOrderStep(boxes, rest, r);
      CheckedCountStep(boxes, rest, r);
      r
  }

  /** One box of `CheckedValues`, for the order: the first box's value, when checked, comes
      before the later boxes' values. */
  lemma CheckedOrderStep(boxes: seq<Checkbox>, rest: seq<string>, r: seq<string>)
    requires boxes != []
    requires Catalogue.IsSubsequence(rest, BoxValues(boxes[1..]))
    requires r == if boxes[0].checked then [boxes[0].value] + rest else rest
    ensures Catalogue.IsSubsequence(r, BoxValues(boxes))
  {
    assert BoxValues(boxes) == [boxes[0].value] + BoxValues(boxes[1..]);
    if boxes[0].checked {
      assert r[1..] == rest;
    } else {
      Catalogue.SubsequenceCons(rest, BoxValues(boxes[1..]), boxes[0].value);
    }
  }

  /** One box of `CheckedValues`, for the order of the boxes themselves: a checked first box is
      the first box the result describes, and an unchecked one is skipped. */
  lemma CheckedBoxOrderStep(boxes: seq<Checkbox>, rest: seq<string>, r: seq<string>)
    requires boxes != []
    requires Catalogue.IsSubsequence(AsChecked(rest), boxes[1..])
    requires r == if boxes[0].checked then [boxes[0].value] + rest else rest
    ensures Catalogue.IsSubsequence(AsChecked(r), boxes)
  {
    assert [boxes[0]] + boxes[1..] == boxes;
    if boxes[0].checked {
      assert AsChecked(r) == [boxes[0]] + AsChecked(rest);
      assert AsChecked(r)[1..] == AsChecked(rest);
    } else {
      Catalogue.SubsequenceCons(AsChecked(rest), boxes[1..], boxes[0]);
    }
  }

  /** One box of `CheckedValues`, for the counts: the first box adds one to its value's count
      exactly when it is checked. */
  lemma CheckedCountStep(boxes: seq<Checkbox>, rest: seq<string>, r: seq<string>)
    requires boxes != []
    requires forall v :: multiset(rest)[v] == multiset(boxes[1..])[Checkbox(v, true)]
    requires r == if boxes[0].checked then [boxes[0].value] + rest else rest
    ensures forall v :: multiset(r)[v] == multiset(boxes)[Checkbox(v, true)]
    ensures forall v :: v in r <==> Checkbox(v, true) in boxes
  {
    assert boxes == [boxes[0]] + boxes[1..];
    forall v
      ensures v in r <==> Checkbox(v, true) in boxes
    {
      assert v in r <==> multiset(r)[v] > 0;
      assert Checkbox(v, true) in boxes <==> multiset(boxes)[Checkbox(v, true)] > 0;
    }
  }

  /** The keys to calculate: the checked boxes for "custom", otherwise the named preset. */
  function Selection(f: Form): (r: Result<seq<string>, CalcError>)
    ensures f.ppeType == "custom" ==> r == Success(CheckedValues(f.boxes))
    ensures f.ppeType != "custom" ==>
      (r.Success? <==> Lookup(Presets, f.ppeType).Some?) &&
      (r.Success? ==> r.value == Lookup(Presets, f.ppeType).value) &&
      (r.Failure? ==> r.error == UnknownPreset(f.ppeType))
  {
    if f.ppeType == "custom" then Success(CheckedValues(f.boxes))
    else
      match Lookup(Presets, f.ppeType)
      case Some(keys) => Success(keys)
      case None => Failure(UnknownPreset(f.ppeType))
  }

  /** The "Calculate" button. On success the results panel shows the rows, the effective worker
      and day counts and the total; an empty selection (the alert) or a missing table entry
      (a thrown error) leaves the form as it was and reports why. */
  function OnCalculate(f: Form): (r: (Form, Option<CalcError>))
    ensures r.1.None? ==> r.0 == f.(shown := r.0.shown) && r.0.shown.Some?
    ensures r.1.Some? ==> r.0 == f
    ensures var workers, workDays := InputCount(f.workers, 10), InputCount(f.workDays, 22);
      && (r.1.None? <==>
            Selection(f).Success? && Calculate(workers, workDays, Selection(f).value).Success?)
      && (r.1.None? ==>
            var c := Calculate(workers, workDays, Selection(f).value).value;
            r.0.shown == Some(Shown(c.lines, workers, workDays, c.total)))
    ensures Selection(f).Failure? ==> r.1 == Some(Selection(f).error)
    ensures Selection(f) == Success([]) ==> r.1 == Some(EmptySelection)
    ensures r.1.None? && (f.workers.None? || f.workers == Some(0)) ==> r.0.shown.value.workers == 10
    ensures r.1.None? && (f.workDays.None? || f.workDays == Some(0)) ==> r.0.shown.value.workDays == 22
  {
    var workers := InputCount(f.workers, 10);
    var workDays := InputCount(f.workDays, 22);
    match Selection(f)
    case Failure(e) => (f, Some(e))
    case Success(keys) =>
      match Calculate(workers, workDays, keys)
      case Failure(e) => (f, Some(e))
      case Success(c) => (f.(shown := Some(Shown(c.lines, workers, workDays, c.total))), None)
  }

  /** The "Reset" button: default counts, the basic preset, the custom section hidden, exactly
      the mask and gloves boxes checked, and the results panel cleared. */
  function OnReset(f: Form): (r: Form)
    ensures |r.boxes| == |f.boxes|
    ensures forall i :: 0 <= i < |f.boxes| ==> r.boxes[i].value == f.boxes[i].value
  {
    Form(Some(10), Some(22), "basic", false,
         seq(|f.boxes|, i requires 0 <= i < |f.boxes| =>
           Checkbox(f.boxes[i].value, f.boxes[i].value in ["mask", "gloves"])),
         None)
  }

  /** Choosing a preset shows the custom section exactly when "custom" is chosen. */
  function OnTypeChange(f: Form, value: string): (r: Form)
    ensures r.ppeType == value && (r.customVisible <==> value == "custom")
    ensures r.(ppeType := f.ppeType, customVisible := f.customVisible) == f
  {
    f.(ppeType := value, customVisible := value == "custom")
  }

  /** After a reset the form holds the defaults, whatever it held before. */
  lemma ResetRestoresDefaults(f: Form)
    ensures var r := OnReset(f);
      && r.workers == Some(10) && r.workDays == Some(22)
      && r.ppeType == "basic" && !r.customVisible
      && r.shown == None
      && forall i :: 0 <= i < |r.boxes| ==> (r.boxes[i].checked <==> r.boxes[i].value in ["mask", "gloves"])
  {
  }

  /** Nothing of a calculation survives a reset. */
  lemma ResetForgetsCalculation(f: Form)
    ensures OnReset(OnCalculate(f).0) == OnReset(f)
  {
  }

  /** Resetting twice is the same as resetting once. */
  lemma ResetIdempotent(f: Form)
    ensures OnReset(OnReset(f)) == OnReset(f)
  {
  }

  /** Calculating straight after a reset shows the basic preset for 10 workers over 22 days:
      990 items in all. */
  lemma CalculateAfterReset(f: Form)
    ensures OnCalculate(OnReset(f)).1 == None
    ensures OnCalculate(OnReset(f)).0.shown.Some?
    ensures var s := OnCalculate(OnReset(f)).0.shown.value;
      s.workers == 10 && s.workDays == 22 && s.total == 990 && |s.lines| == 3
  {
    var g := OnReset(f);
    assert Selection(g) == Success(["mask", "gloves", "gown"]) by {
      assert Presets[0].0 == "basic";
    }
    BasicPresetExample();
  }
}
