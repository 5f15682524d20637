/** Checking the build numbers of an appcast against the floors of their versions. */
module Appcast {
  import opened Options
  import opened Texts
  import opened Decimals
  import opened Sparkle

  const LANE_FLOOR_ADOPTION_DATE_KEY := 20260227

  /** The tags of an <item>, as extracted. */
  datatype Item = Item(title: Option<Text>, shortVersion: Option<Text>, sparkleVersion: Option<Text>)

  datatype Error =
    | NoItems
    | MissingVersion(title: Option<Text>)
    | NonNumericVersion(title: Option<Text>, sparkleVersion: Text)
    | BelowFloor(title: Option<Text>, sparkleBuild: nat, laneExpected: bool, floor: nat)

  datatype CalverItem = CalverItem(title: Option<Text>, sparkleBuild: nat, floors: Floors)

  predicate Present(tag: Option<Text>) {
    tag.Some? && tag.value != []
  }

  predicate Numbered(item: Item) {
    Present(item.sparkleVersion) && AllDigits(item.sparkleVersion.value)
  }

  function Build(item: Item): nat
    requires Numbered(item)
  {
    Value(item.sparkleVersion.value)
  }

  function FloorsOfItem(item: Item): Option<Floors> {
    if Present(item.shortVersion) then FloorsFromShortVersion(item.shortVersion.value) else None
  }

  /** Items the floors are checked of: numeric build, calendar version. */
  predicate Checked(item: Item) {
    Numbered(item) && FloorsOfItem(item).Some?
  }

  function FormError(item: Item): seq<Error> {
    if !Present(item.sparkleVersion) then [MissingVersion(item.title)]
    else if !AllDigits(item.sparkleVersion.value) then [NonNumericVersion(item.title, item.sparkleVersion.value)]
    else []
  }

  function FormErrors(items: seq<Item>): seq<Error> {
    if items == [] then [] else FormErrors(items[..|items| - 1]) + FormError(items[|items| - 1])
  }

  function CalverOf(item: Item): CalverItem
    requires Checked(item)
  {
    CalverItem(item.title, Build(item), FloorsOfItem(item).value)
  }

  function Calver(item: Item): seq<CalverItem> {
    if Checked(item) then [CalverOf(item)] else []
  }

  function CalverItems(items: seq<Item>): seq<CalverItem> {
    if items == [] then [] else CalverItems(items[..|items| - 1]) + Calver(items[|items| - 1])
  }

  /** The earliest date of a lane-numbered item, or the day lanes were adopted if that is earlier. */
  function AdoptionDateKey(calverItems: seq<CalverItem>): (r: nat)
    ensures r <= LANE_FLOOR_ADOPTION_DATE_KEY
    ensures forall c :: c in calverItems && c.sparkleBuild >= LANE_BUILD_MIN ==> r <= c.floors.dateKey
    ensures r == LANE_FLOOR_ADOPTION_DATE_KEY
            || exists c :: c in calverItems && c.sparkleBuild >= LANE_BUILD_MIN && r == c.floors.dateKey
  {
    if calverItems == [] then LANE_FLOOR_ADOPTION_DATE_KEY
    else
      var last := calverItems[|calverItems| - 1];
      var front := AdoptionDateKey(calverItems[..|calverItems| - 1]);
      if last.sparkleBuild >= LANE_BUILD_MIN && last.floors.dateKey < front then last.floors.dateKey else front
  }

  predicate LaneExpected(c: CalverItem, adoption: nat) {
    c.sparkleBuild >= LANE_BUILD_MIN || c.floors.dateKey >= adoption
  }

  function Floor(c: CalverItem, adoption: nat): nat {
    if LaneExpected(c, adoption) then c.floors.laneFloor else c.floors.legacyFloor
  }

  function FloorError(c: CalverItem, adoption: nat): seq<Error> {
    if c.sparkleBuild < Floor(c, adoption)
    then [BelowFloor(c.title, c.sparkleBuild, LaneExpected(c, adoption), Floor(c, adoption))]
    else []
  }

  function FloorErrors(calverItems: seq<CalverItem>, adoption: nat): seq<Error> {
    if calverItems == [] then []
    else FloorErrors(calverItems[..|calverItems| - 1], adoption) + FloorError(calverItems[|calverItems| - 1], adoption)
  }

  function Errors(items: seq<Item>): seq<Error> {
    (if items == [] then [NoItems] else []) + FormErrors(items)
    + FloorErrors(CalverItems(items), AdoptionDateKey(CalverItems(items)))
  }

  method CollectAppcastSparkleVersionErrors(items: seq<Item>) returns (errors: seq<Error>)
    ensures errors == Errors(items)
  {
    var calverItems;
    errors, calverItems := ReadItems(items);
    errors := CheckFloors(calverItems, errors);
  }

  /** The first loop: malformed versions are reported, calendar versions kept. */
  method ReadItems(items: seq<Item>) returns (errors: seq<Error>, calverItems: seq<CalverItem>)
    ensures errors == (if items == [] then [NoItems] else []) + FormErrors(items)
    ensures calverItems == CalverItems(items)
  {
    errors, calverItems := [], [];
    if |items| == 0 {
      errors := errors + [NoItems];
    }
    for i := 0 to |items|
      invariant errors == (if items == [] then [NoItems] else []) + FormErrors(items[..i])
      invariant calverItems == CalverItems(items[..i])
    {
      assert items[..i + 1][..i] == items[..i];
      errors, calverItems := ReadItem(items[i], errors, calverItems);
    }
    assert items[..|items|] == items;
  }

  /** The second loop: builds against floors. */
  method CheckFloors(calverItems: seq<CalverItem>, errors0: seq<Error>) returns (errors: seq<Error>)
    ensures errors == errors0 + FloorErrors(calverItems, AdoptionDateKey(calverItems))
  {
    errors := errors0;
    var adoption := AdoptionDateKey(calverItems);
    for j := 0 to |calverItems|
      invariant errors == errors0 + FloorErrors(calverItems[..j], adoption)
    {
      var item := calverItems[j];
      assert calverItems[..j + 1][..j] == calverItems[..j];
      var floor := if LaneExpected(item, adoption) then item.floors.laneFloor else item.floors.legacyFloor;
      if item.sparkleBuild < floor {
        errors := errors + [BelowFloor(item.title, item.sparkleBuild, LaneExpected(item, adoption), floor)];
      }
    }
    assert calverItems[..|calverItems|] == calverItems;
  }

  method ReadItem(item: Item, errors0: seq<Error>, calverItems0: seq<CalverItem>)
      returns (errors: seq<Error>, calverItems: seq<CalverItem>)
    ensures errors == errors0 + FormError(item)
    ensures calverItems == calverItems0 + Calver(item)
  {
    errors, calverItems := errors0, calverItems0;
    if !Present(item.sparkleVersion) {
      errors := errors + [MissingVersion(item.title)];
      return;
    }
    if !AllDigits(item.sparkleVersion.value) {
      errors := errors + [NonNumericVersion(item.title, item.sparkleVersion.value)];
      return;
    }
    if !Present(item.shortVersion) {
      return;
    }
    var floors := FloorsFromShortVersion(item.shortVersion.value);
    if floors.None? {
      return;
    }
    calverItems := calverItems + [CalverItem(item.title, Value(item.sparkleVersion.value), floors.value)];
  }

  // ---- what a report without floor errors means ----

  ghost predicate LaneNumbered(item: Item) {
    Checked(item) && Build(item) >= 1000000000
  }

  function DateKey(item: Item): nat
    requires Checked(item)
  {
    FloorsOfItem(item).value.dateKey
  }

  ghost predicate NoFloorErrors(errors: seq<Error>) {
    forall e :: e in errors ==> !e.BelowFloor?
  }

  /** Dated on or after the adoption day or a lane-numbered item. */
  ghost predicate InLaneEra(items: seq<Item>, item: Item)
    requires Checked(item)
  {
    || DateKey(item) >= 20260227
    || exists k :: 0 <= k < |items| && LaneNumbered(items[k]) && DateKey(items[k]) <= DateKey(item)
  }

  lemma {:induction false} FormErrorsOnly(items: seq<Item>)
    ensures NoFloorErrors(FormErrors(items))
  {
    if items != [] {
      FormErrorsOnly(items[..|items| - 1]);
    }
  }

  lemma {:induction false} FloorErrorsOf(calverItems: seq<CalverItem>, adoption: nat)
    ensures NoFloorErrors(FloorErrors(calverItems, adoption))
            <==> forall c :: c in calverItems ==> c.sparkleBuild >= Floor(c, adoption)
  {
    if calverItems != [] {
      var front, last := calverItems[..|calverItems| - 1], calverItems[|calverItems| - 1];
      FloorErrorsOf(front, adoption);
      assert forall c :: c in calverItems <==> c in front || c == last;
      var e, f := FloorErrors(front, adoption), FloorError(last, adoption);
      assert forall x :: x in e + f <==> x in e || x in f;
      assert last.sparkleBuild < Floor(last, adoption) ==> f[0] in f;
    }
  }

  /** Every item the second loop sees is a checked one, and conversely. */
  lemma {:induction false} CalverFrom(items: seq<Item>, c: CalverItem) returns (i: nat)
    requires c in CalverItems(items)
    ensures i < |items| && Is(items[i], c)
  {
    if c in Calver(items[|items| - 1]) {
      i := |items| - 1;
    } else {
      i := CalverFrom(items[..|items| - 1], c);
    }
  }

  lemma {:induction false} CalverKept(items: seq<Item>, i: nat)
    requires i < |items| && Checked(items[i])
    ensures CalverOf(items[i]) in CalverItems(items)
  {
    var front := items[..|items| - 1];
    if i < |front| {
      assert front[i] == items[i];
      CalverKept(front, i);
    } else {
      assert Calver(items[i])[0] in Calver(items[i]);
    }
  }

  predicate Is(item: Item, c: CalverItem) {
    Checked(item) && CalverOf(item) == c
  }

  lemma AdoptionMeansEra(items: seq<Item>, item: Item)
    requires Checked(item)
    ensures DateKey(item) >= AdoptionDateKey(CalverItems(items)) <==> InLaneEra(items, item)
  {
    var calverItems := CalverItems(items);
    var adoption := AdoptionDateKey(calverItems);
    if adoption <= DateKey(item) && adoption != LANE_FLOOR_ADOPTION_DATE_KEY {
      var c :| c in calverItems && c.sparkleBuild >= LANE_BUILD_MIN && adoption == c.floors.dateKey;
      var k := CalverFrom(items, c);
      assert LaneNumbered(items[k]) && DateKey(items[k]) <= DateKey(item);
    }
    if k :| 0 <= k < |items| && LaneNumbered(items[k]) && DateKey(items[k]) <= DateKey(item) {
      CalverKept(items, k);
    }
  }

  lemma ErrorsFromFloors(items: seq<Item>)
    ensures NoFloorErrors(Errors(items))
            <==> NoFloorErrors(FloorErrors(CalverItems(items), AdoptionDateKey(CalverItems(items))))
  {
    FormErrorsOnly(items);
    var before := (if items == [] then [NoItems] else []) + FormErrors(items);
    var floors := FloorErrors(CalverItems(items), AdoptionDateKey(CalverItems(items)));
    assert Errors(items) == before + floors;
    assert forall e :: e in before + floors <==> e in before || e in floors;
  }

  /** Every checked item of the lane era meets its lane floor, every other one its legacy floor. */
  ghost predicate FloorMet(items: seq<Item>, item: Item)
    requires Checked(item)
  {
    var f := FloorsOfItem(item).value;
    Build(item) >= if LaneNumbered(item) || InLaneEra(items, item) then f.laneFloor else f.legacyFloor
  }

  lemma FloorMeans(items: seq<Item>, item: Item)
    requires Checked(item)
    ensures FloorMet(items, item)
            <==> Build(item) >= Floor(CalverOf(item), AdoptionDateKey(CalverItems(items)))
  {
    AdoptionMeansEra(items, item);
  }

  /** No floor error is reported exactly when every checked item meets its floor: the lane floor
      if it is lane-numbered itself, dated on or after a lane-numbered item, or dated on or after
      the adoption day; the legacy floor otherwise. */
  lemma FloorErrorsExactly(items: seq<Item>)
    ensures NoFloorErrors(Errors(items))
            <==> forall i :: 0 <= i < |items| && Checked(items[i]) ==> FloorMet(items, items[i])
  {
    var calverItems := CalverItems(items);
    var adoption := AdoptionDateKey(calverItems);
    ErrorsFromFloors(items);
    FloorErrorsOf(calverItems, adoption);
    if NoFloorErrors(Errors(items)) {
      forall i | 0 <= i < |items| && Checked(items[i]) ensures FloorMet(items, items[i]) {
        CalverKept(items, i);
        FloorMeans(items, items[i]);
      }
    }
    if forall i :: 0 <= i < |items| && Checked(items[i]) ==> FloorMet(items, items[i]) {
      forall c | c in calverItems ensures c.sparkleBuild >= Floor(c, adoption) {
        var i := CalverFrom(items, c);
        FloorMeans(items, items[i]);
      }
    }
  }

  /** Without a floor error nothing falls back: whatever is dated on or after a lane-numbered
      item meets its own lane floor, and is lane-numbered itself from the year 1000 on. */
  lemma NoFallback(items: seq<Item>, k: nat, i: nat)
    requires NoFloorErrors(Errors(items))
    requires k < |items| && LaneNumbered(items[k])
    requires i < |items| && Checked(items[i]) && DateKey(items[k]) <= DateKey(items[i])
    ensures Build(items[i]) >= FloorsOfItem(items[i]).value.laneFloor
    ensures Read(items[i].shortVersion.value).value.year >= 1000 ==> LaneNumbered(items[i])
  {
    FloorErrorsExactly(items);
    assert FloorMet(items, items[i]);
    LanesSeparate(items[i].shortVersion.value, Read(items[i].shortVersion.value).value);
  }

  // ---- the errors reported, one by one ----

  /** at lists, in order, the positions of the errors that are not empty. */
  ghost predicate Lists(at: seq<nat>, pieces: seq<seq<Error>>) {
    && (forall i, j :: 0 <= i < j < |at| ==> at[i] < at[j])
    && (forall i :: 0 <= i < |at| ==> at[i] < |pieces| && pieces[at[i]] != [])
    && (forall k: nat :: k < |pieces| && pieces[k] != [] ==> k in at)
  }

  function Flat(pieces: seq<seq<Error>>): seq<Error> {
    if pieces == [] then [] else Flat(pieces[..|pieces| - 1]) + pieces[|pieces| - 1]
  }

  lemma ListsMore(at: seq<nat>, front: seq<seq<Error>>, last: seq<Error>)
    requires Lists(at, front)
    ensures Lists(if last == [] then at else at + [|front|], front + [last])
  {
    var pieces := front + [last];
    forall k: nat | k < |pieces| && pieces[k] != [] ensures k in if last == [] then at else at + [|front|] {
      if k < |front| {
        assert front[k] != [];
      }
    }
  }

  ghost predicate Picks(at: seq<nat>, pieces: seq<seq<Error>>, errors: seq<Error>) {
    && Lists(at, pieces) && |at| == |errors|
    && forall j :: 0 <= j < |at| ==> errors[j] == pieces[at[j]][0]
  }

  lemma PicksMore(at: seq<nat>, front: seq<seq<Error>>, last: seq<Error>, errors: seq<Error>)
    requires Picks(at, front, errors) && |last| <= 1
    ensures Picks(if last == [] then at else at + [|front|], front + [last], errors + last)
  {
    ListsMore(at, front, last);
  }

  lemma FlatMore(front: seq<seq<Error>>, last: seq<Error>)
    ensures Flat(front + [last]) == Flat(front) + last
  {
    assert (front + [last])[..|front|] == front;
  }

  lemma PicksLast(pieces: seq<seq<Error>>, before: seq<nat>) returns (at: seq<nat>)
    requires pieces != [] && |pieces[|pieces| - 1]| <= 1
    requires Picks(before, pieces[..|pieces| - 1], Flat(pieces[..|pieces| - 1]))
    ensures Picks(at, pieces, Flat(pieces))
  {
    var front, last := pieces[..|pieces| - 1], pieces[|pieces| - 1];
    at := if last == [] then before else before + [|front|];
    PicksMore(before, front, last, Flat(front));
    FlatMore(front, last);
    assert pieces == front + [last];
  }

  lemma {:induction false} FlatListed(pieces: seq<seq<Error>>) returns (at: seq<nat>)
    requires forall i :: 0 <= i < |pieces| ==> |pieces[i]| <= 1
    ensures Picks(at, pieces, Flat(pieces))
  {
    if pieces == [] {
      at := [];
    } else {
      at := FlatListed(pieces[..|pieces| - 1]);
      at := PicksLast(pieces, at);
    }
  }

  /** The item has no build, or one that is no number. */
  ghost predicate Malformed(item: Item) {
    || item.sparkleVersion.None? || item.sparkleVersion.value == []
    || exists i :: 0 <= i < |item.sparkleVersion.value| && !(0x30 <= item.sparkleVersion.value[i] <= 0x39)
  }

  ghost predicate FormErrorOf(item: Item, e: Error) {
    if item.sparkleVersion.None? || item.sparkleVersion.value == [] then e == MissingVersion(item.title)
    else e == NonNumericVersion(item.title, item.sparkleVersion.value)
  }

  lemma FormErrorMeans(item: Item)
    ensures if Malformed(item) then |FormError(item)| == 1 && FormErrorOf(item, FormError(item)[0]) else FormError(item) == []
  {
  }

  /** The item has a numeric build and a version of this date and lane. */
  ghost predicate DatedAs(item: Item, p: Stamp) {
    !Malformed(item) && item.shortVersion.Some? && item.shortVersion.value != [] && Read(item.shortVersion.value) == Some(p)
  }

  function Day(p: Stamp): nat {
    p.year * 10000 + p.month * 100 + p.day
  }

  lemma DatedChecked(item: Item, p: Stamp)
    requires DatedAs(item, p)
    ensures Checked(item) && Build(item) == Value(item.sparkleVersion.value) && FloorsOfItem(item) == Some(FloorsOf(p))
  {
  }

  lemma NumberedFormed(item: Item)
    ensures Malformed(item) <==> !Numbered(item)
  {
  }

  lemma CheckedDated(item: Item)
    requires Checked(item)
    ensures Read(item.shortVersion.value).Some? && DatedAs(item, Read(item.shortVersion.value).value)
  {
    NumberedFormed(item);
    FloorsRead(item);
  }

  lemma FloorsRead(item: Item)
    requires FloorsOfItem(item).Some?
    ensures item.shortVersion.Some? && item.shortVersion.value != [] && Read(item.shortVersion.value).Some?
  {
  }

  lemma CheckedExactly(item: Item, p: Stamp)
    requires DatedAs(item, p)
    ensures Checked(item) && Build(item) == Value(item.sparkleVersion.value) && DateKey(item) == Day(p)
    ensures var f := FloorsOfItem(item).value; f.legacyFloor == Day(p) * 10 && f.laneFloor == Day(p) * 100 + p.lane
  {
    DatedChecked(item, p);
    ReadExactly(item.shortVersion.value, p);
    FloorsArithmetic(p);
  }

  /** The item is held to its lane floor: its build, or that of a version not dated later, is in the
      lane range, or it is dated 2026-02-27 or later. */
  ghost predicate HeldToLane(items: seq<Item>, item: Item, p: Stamp) {
    || (!Malformed(item) && Value(item.sparkleVersion.value) >= 1000000000)
    || Day(p) >= 20260227
    || exists k, q :: 0 <= k < |items| && DatedAs(items[k], q)
                      && Value(items[k].sparkleVersion.value) >= 1000000000 && Day(q) <= Day(p)
  }

  lemma EraHeld(items: seq<Item>, item: Item, p: Stamp, k: nat)
    requires DatedAs(item, p) && Checked(item) && k < |items| && LaneNumbered(items[k]) && DateKey(items[k]) <= DateKey(item)
    ensures HeldToLane(items, item, p)
  {
    CheckedExactly(item, p);
    CheckedDated(items[k]);
    CheckedExactly(items[k], Read(items[k].shortVersion.value).value);
  }

  lemma HeldEra(items: seq<Item>, item: Item, p: Stamp, k: nat, q: Stamp)
    requires DatedAs(item, p) && Checked(item) && k < |items| && DatedAs(items[k], q)
    requires Value(items[k].sparkleVersion.value) >= 1000000000 && Day(q) <= Day(p)
    ensures InLaneEra(items, item)
  {
    CheckedExactly(item, p);
    CheckedExactly(items[k], q);
    assert LaneNumbered(items[k]) && DateKey(items[k]) <= DateKey(item);
  }

  lemma HeldIf(items: seq<Item>, item: Item, p: Stamp)
    requires DatedAs(item, p) && Checked(item) && (LaneNumbered(item) || InLaneEra(items, item))
    ensures HeldToLane(items, item, p)
  {
    CheckedExactly(item, p);
    if k: nat :| k < |items| && LaneNumbered(items[k]) && DateKey(items[k]) <= DateKey(item) {
      EraHeld(items, item, p, k);
    }
  }

  lemma HeldOnlyIf(items: seq<Item>, item: Item, p: Stamp)
    requires DatedAs(item, p) && Checked(item) && HeldToLane(items, item, p)
    ensures LaneNumbered(item) || InLaneEra(items, item)
  {
    CheckedExactly(item, p);
    if k: nat, q :| k < |items| && DatedAs(items[k], q) && Value(items[k].sparkleVersion.value) >= 1000000000 && Day(q) <= Day(p) {
      HeldEra(items, item, p, k, q);
    }
  }

  lemma HeldMeans(items: seq<Item>, item: Item, p: Stamp)
    requires DatedAs(item, p)
    ensures Checked(item) && (HeldToLane(items, item, p) <==> LaneNumbered(item) || InLaneEra(items, item))
  {
    DatedChecked(item, p);
    if LaneNumbered(item) || InLaneEra(items, item) {
      HeldIf(items, item, p);
    } else if HeldToLane(items, item, p) {
      HeldOnlyIf(items, item, p);
    }
  }

  /** The item's build lies below its floor, and the error names build, kind and floor. */
  ghost predicate FloorErrorOf(items: seq<Item>, item: Item, p: Stamp, e: Error) {
    && DatedAs(item, p) && e.BelowFloor? && e.title == item.title && e.sparkleBuild == Value(item.sparkleVersion.value)
    && (e.laneExpected <==> HeldToLane(items, item, p))
    && e.floor == (if HeldToLane(items, item, p) then Day(p) * 100 + p.lane else Day(p) * 10)
  }

  ghost predicate TooLow(items: seq<Item>, item: Item) {
    exists p :: DatedAs(item, p)
                && Value(item.sparkleVersion.value) < if HeldToLane(items, item, p) then Day(p) * 100 + p.lane else Day(p) * 10
  }

  lemma FloorErrorMeans(items: seq<Item>, item: Item, p: Stamp)
    requires DatedAs(item, p)
    ensures Checked(item)
    ensures var r := FloorError(CalverOf(item), AdoptionDateKey(CalverItems(items)));
      if TooLow(items, item) then |r| == 1 && FloorErrorOf(items, item, p, r[0]) else r == []
  {
    CheckedExactly(item, p);
    HeldMeans(items, item, p);
    AdoptionMeansEra(items, item);
    assert forall q :: DatedAs(item, q) ==> q == p;
  }

  lemma NotDatedNotLow(items: seq<Item>, item: Item)
    requires !Checked(item)
    ensures !TooLow(items, item)
  {
    if p :| DatedAs(item, p) {
      CheckedExactly(item, p);
      assert false;
    }
  }

  ghost predicate SomeFloorError(items: seq<Item>, item: Item, e: Error) {
    exists p :: FloorErrorOf(items, item, p, e)
  }

  /** What each item contributes to the two parts of the report. */
  function FormPieces(items: seq<Item>): (r: seq<seq<Error>>)
    ensures |r| == |items| && forall i :: 0 <= i < |r| ==> r[i] == FormError(items[i])
  {
    seq(|items|, i requires 0 <= i < |items| => FormError(items[i]))
  }

  function FloorPiece(item: Item, adoption: nat): seq<Error> {
    if Checked(item) then FloorError(CalverOf(item), adoption) else []
  }

  function FloorPieces(items: seq<Item>, adoption: nat): (r: seq<seq<Error>>)
    ensures |r| == |items| && forall i :: 0 <= i < |r| ==> r[i] == FloorPiece(items[i], adoption)
  {
    seq(|items|, i requires 0 <= i < |items| => FloorPiece(items[i], adoption))
  }

  lemma {:induction false} FormFlat(items: seq<Item>)
    ensures FormErrors(items) == Flat(FormPieces(items))
  {
    if items != [] {
      var front := items[..|items| - 1];
      FormFlat(front);
      assert FormPieces(items)[..|front|] == FormPieces(front);
    }
  }

  lemma CalverMore(calverItems: seq<CalverItem>, item: Item, adoption: nat)
    ensures FloorErrors(calverItems + Calver(item), adoption) == FloorErrors(calverItems, adoption) + FloorPiece(item, adoption)
  {
    if Checked(item) {
      assert (calverItems + [CalverOf(item)])[..|calverItems|] == calverItems;
    } else {
      assert calverItems + Calver(item) == calverItems;
    }
  }

  lemma FloorPiecesMore(front: seq<Item>, item: Item, adoption: nat)
    ensures Flat(FloorPieces(front + [item], adoption)) == Flat(FloorPieces(front, adoption)) + FloorPiece(item, adoption)
    ensures FloorErrors(CalverItems(front + [item]), adoption)
         == FloorErrors(CalverItems(front), adoption) + FloorPiece(item, adoption)
  {
    assert (front + [item])[..|front|] == front;
    CalverMore(CalverItems(front), item, adoption);
    FlatMore(FloorPieces(front, adoption), FloorPiece(item, adoption));
    assert FloorPieces(front + [item], adoption) == FloorPieces(front, adoption) + [FloorPiece(item, adoption)];
  }

  lemma {:induction false} FloorFlat(items: seq<Item>, adoption: nat)
    ensures FloorErrors(CalverItems(items), adoption) == Flat(FloorPieces(items, adoption))
  {
    if items != [] {
      var front := items[..|items| - 1];
      assert items == front + [items[|front|]];
      FloorFlat(front, adoption);
      FloorPiecesMore(front, items[|front|], adoption);
    }
  }

  lemma FloorPieceMeans(items: seq<Item>, item: Item)
    ensures var r := FloorPiece(item, AdoptionDateKey(CalverItems(items)));
      if TooLow(items, item) then |r| == 1 && SomeFloorError(items, item, r[0]) else r == []
  {
    if Checked(item) {
      var p := Read(item.shortVersion.value).value;
      CheckedDated(item);
      FloorErrorMeans(items, item, p);
      if TooLow(items, item) {
        assert FloorErrorOf(items, item, p, FloorPiece(item, AdoptionDateKey(CalverItems(items)))[0]);
      }
    } else {
      NotDatedNotLow(items, item);
    }
  }

  /** at lists the malformed items, in order, and the errors are theirs. */
  ghost predicate FormListed(items: seq<Item>, at: seq<nat>, errors: seq<Error>) {
    && |errors| == |at| && (forall i, j :: 0 <= i < j < |at| ==> at[i] < at[j])
    && (forall k: nat :: k in at <==> k < |items| && Malformed(items[k]))
    && forall j :: 0 <= j < |at| ==> at[j] < |items| && FormErrorOf(items[at[j]], errors[j])
  }

  /** at lists the items with a build below its floor, in order, and the errors are theirs. */
  ghost predicate FloorListed(items: seq<Item>, at: seq<nat>, errors: seq<Error>) {
    && |errors| == |at| && (forall i, j :: 0 <= i < j < |at| ==> at[i] < at[j])
    && (forall k: nat :: k in at <==> k < |items| && TooLow(items, items[k]))
    && forall j :: 0 <= j < |at| ==> at[j] < |items| && SomeFloorError(items, items[at[j]], errors[j])
  }

  lemma FormErrorsListed(items: seq<Item>) returns (at: seq<nat>)
    ensures FormListed(items, at, FormErrors(items))
  {
    var pieces := FormPieces(items);
    forall i | 0 <= i < |items|
      ensures if Malformed(items[i]) then |pieces[i]| == 1 && FormErrorOf(items[i], pieces[i][0]) else pieces[i] == []
    {
      FormErrorMeans(items[i]);
    }
    FormFlat(items);
    at := FlatListed(pieces);
  }

  lemma FloorErrorsListed(items: seq<Item>) returns (at: seq<nat>)
    ensures FloorListed(items, at, FloorErrors(CalverItems(items), AdoptionDateKey(CalverItems(items))))
  {
    var pieces := FloorPieces(items, AdoptionDateKey(CalverItems(items)));
    forall i | 0 <= i < |items|
      ensures if TooLow(items, items[i]) then |pieces[i]| == 1 && SomeFloorError(items, items[i], pieces[i][0]) else pieces[i] == []
    {
      FloorPieceMeans(items, items[i]);
    }
    FloorFlat(items, AdoptionDateKey(CalverItems(items)));
    at := FlatListed(pieces);
  }

  /** The report in full: an error for no items at all, one for each malformed build, in order, then
      one for each build below its floor, in order, naming build, kind of floor and floor. */
  lemma ErrorsListed(items: seq<Item>) returns (form: seq<nat>, low: seq<nat>)
    ensures var errors, first := Errors(items), if items == [] then 1 else 0;
      && |errors| == first + |form| + |low| && (items == [] ==> errors[0] == NoItems)
      && FormListed(items, form, errors[first..first + |form|]) && FloorListed(items, low, errors[first + |form|..])
  {
    form := FormErrorsListed(items);
    low := FloorErrorsListed(items);
    var errors, first := Errors(items), if items == [] then 1 else 0;
    assert errors[first..first + |form|] == FormErrors(items);
    assert errors[first + |form|..] == FloorErrors(CalverItems(items), AdoptionDateKey(CalverItems(items)));
  }
}
