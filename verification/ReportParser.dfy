/**
 The strict parser as the object the source updates item by item, and `finish`, which decides which
 collections can be opened. `finish` walks Go maps, whose order is arbitrary: the loops below take any
 remaining key, and what they promise holds whichever key was taken.
 */
module DescriptorParser {
  import opened Values
  import opened DescriptorItems
  import opened StrictParser
  import opened LayoutTracking

  datatype ReportSpec = ReportSpec(id: nat, size: nat)

  datatype Collection = Collection(index: nat, usage: Usage, input: ReportSpec, output: ReportSpec, supported: bool)

  const NO_REPORT := ReportSpec(0, 0)

  function Spec(m: map<nat, nat>, id: nat): ReportSpec
    requires id in m
  {
    ReportSpec(id, (m[id] + 7) / 8)
  }

  /** Some report of the map, or none when it is empty: the last key the loop happened to take. */
  ghost predicate SomeReport(spec: ReportSpec, m: map<nat, nat>) {
    if m == map[] then spec == NO_REPORT else exists id :: id in m && spec == Spec(m, id)
  }

  // ----- Which collections are usable, said of the descriptor ---------------------------------

  /** The collection has this one report in this direction, it is not empty, and no other collection has its ID. */
  ghost predicate SoleReport(fields: seq<Field>, app: int, dir: Direction, id: nat) {
    && UsesId(fields, app, dir, id) && Bits(fields, app, dir, id) > 0
    && (forall other :: UsesId(fields, app, dir, other) ==> other == id)
    && (forall j :: UsesId(fields, j, dir, id) ==> j == app)
  }

  ghost predicate HasSole(fields: seq<Field>, app: int, dir: Direction) {
    exists id: nat :: SoleReport(fields, app, dir, id)
  }

  /** An unnumbered report beside a numbered one in the same direction. */
  ghost predicate Mixed(fields: seq<Field>, dir: Direction) {
    (exists j :: UsesId(fields, j, dir, 0)) && (exists k, id :: id != 0 && UsesId(fields, k, dir, id))
  }

  ghost predicate Usable(items: seq<Item>, app: int) {
    && !SetsIdZero(items)
    && (forall dir :: !Mixed(Fields(items), dir))
    && (forall dir :: HasSole(Fields(items), app, dir))
  }

  // ----- The same, said of the parser's maps ---------------------------------------------------

  predicate HasId(reports: seq<Reports>, i: int, dir: Direction, id: nat) {
    0 <= i < |reports| && id in reports[i].In(dir)
  }

  /** Among the first n collections, another one has an ID of collection i. */
  ghost predicate SharesBelow(reports: seq<Reports>, n: nat, i: int, dir: Direction) {
    exists j, id :: j != i && j < n && HasId(reports, i, dir, id) && HasId(reports, j, dir, id)
  }

  ghost predicate Shares(reports: seq<Reports>, i: int, dir: Direction) {
    SharesBelow(reports, |reports|, i, dir)
  }

  ghost predicate MixedIn(reports: seq<Reports>, dir: Direction) {
    (exists j :: HasId(reports, j, dir, 0)) && (exists k, id :: id != 0 && HasId(reports, k, dir, id))
  }

  ghost predicate OneFullReport(m: map<nat, nat>) {
    |m| == 1 && forall id :: id in m ==> m[id] > 0
  }

  ghost predicate SupportedIn(p: PState, i: int)
    requires 0 <= i < |p.reports|
  {
    && !p.invalidLayout
    && (forall dir :: OneFullReport(p.reports[i].In(dir)) && !Shares(p.reports, i, dir) && !MixedIn(p.reports, dir))
  }

  lemma DecidedByDirection(reports: seq<Reports>, i: nat)
    requires i < |reports|
    ensures (forall dir :: OneFullReport(reports[i].In(dir)) && !Shares(reports, i, dir) && !MixedIn(reports, dir)) <==>
            (&& OneFullReport(reports[i].input) && !Shares(reports, i, Input) && !MixedIn(reports, Input)
             && OneFullReport(reports[i].output) && !Shares(reports, i, Output) && !MixedIn(reports, Output))
  {
    assert reports[i].In(Input) == reports[i].input && reports[i].In(Output) == reports[i].output;
  }

  lemma Singleton<T>(s: set<T>, x: T, y: T)
    requires |s| == 1 && x in s && y in s
    ensures x == y
  {
    if x != y {
      assert {x, y} <= s;
      assert |{x, y}| == 2;
      Cardinality({x, y}, s);
    }
  }

  lemma Cardinality<T>(a: set<T>, b: set<T>)
    requires a <= b
    ensures |a| <= |b|
  {
    assert b == a + (b - a);
  }

  lemma TracksHasId(reports: seq<Reports>, fields: seq<Field>, i: int, dir: Direction, id: nat)
    requires TracksFields(reports, fields)
    ensures HasId(reports, i, dir, id) <==> UsesId(fields, i, dir, id)
  {
  }

  lemma TracksSole(reports: seq<Reports>, fields: seq<Field>, i: nat, dir: Direction)
    requires TracksFields(reports, fields) && i < |reports|
    ensures HasSole(fields, i, dir) <==> OneFullReport(reports[i].In(dir)) && !Shares(reports, i, dir)
  {
    forall j, id ensures HasId(reports, j, dir, id) <==> UsesId(fields, j, dir, id) {
      TracksHasId(reports, fields, j, dir, id);
    }
    var m := reports[i].In(dir);
    if HasSole(fields, i, dir) {
      var id: nat :| SoleReport(fields, i, dir, id);
      assert HasId(reports, i, dir, id);
      forall other | other in m.Keys ensures other == id {
        assert HasId(reports, i, dir, other);
      }
      assert m.Keys == {id};
      assert |m| == |m.Keys|;
    }
    if OneFullReport(m) && !Shares(reports, i, dir) {
      assert |m.Keys| == 1;
      var id :| id in m.Keys;
      assert HasId(reports, i, dir, id);
      forall other | UsesId(fields, i, dir, other) ensures other == id {
        assert HasId(reports, i, dir, other);
        Singleton(m.Keys, id, other);
      }
      assert SoleReport(fields, i, dir, id);
    }
  }

  lemma TracksMixed(reports: seq<Reports>, fields: seq<Field>, dir: Direction)
    requires TracksFields(reports, fields)
    ensures Mixed(fields, dir) <==> MixedIn(reports, dir)
  {
    forall j, id ensures HasId(reports, j, dir, id) <==> UsesId(fields, j, dir, id) {
      TracksHasId(reports, fields, j, dir, id);
    }
  }

  /** The decision taken on the maps is the one stated about the descriptor. */
  lemma SupportedExact(p: PState, items: seq<Item>, i: nat)
    requires Tracks(p, items) && i < |p.reports|
    ensures SupportedIn(p, i) <==> Usable(items, i)
  {
    forall dir: Direction
      ensures HasSole(Fields(items), i, dir) <==> OneFullReport(p.reports[i].In(dir)) && !Shares(p.reports, i, dir)
      ensures Mixed(Fields(items), dir) <==> MixedIn(p.reports, dir)
    {
      TracksSole(p.reports, Fields(items), i, dir);
      TracksMixed(p.reports, Fields(items), dir);
    }
  }

  // ----- finish: owners of report IDs ----------------------------------------------------------

  /** Of the first n collections, the owner of an ID is the first that has it. */
  ghost predicate Owners(reports: seq<Reports>, n: nat, dir: Direction, owners: map<nat, nat>) {
    && (forall j, id :: j < n && HasId(reports, j, dir, id) ==> id in owners && owners[id] <= j)
    && (forall id :: id in owners ==> owners[id] < n && HasId(reports, owners[id], dir, id))
  }

  ghost predicate Claimed(m: map<nat, nat>, i: nat, owners: map<nat, nat>, owners': map<nat, nat>) {
    && (forall id :: id in owners' <==> id in owners || id in m)
    && (forall id :: id in owners' ==> owners'[id] == if id in owners then owners[id] else i)
  }

  /** Collection j owned an ID the map has. */
  ghost predicate Clashes(m: map<nat, nat>, owners: map<nat, nat>, j: nat) {
    exists id :: id in m && id in owners && owners[id] == j
  }

  ghost predicate AnyClash(m: map<nat, nat>, owners: map<nat, nat>) {
    exists id :: id in m && id in owners
  }

  lemma OwnersGrow(reports: seq<Reports>, i: nat, dir: Direction, owners: map<nat, nat>, owners': map<nat, nat>)
    requires i < |reports| && Owners(reports, i, dir, owners) && Claimed(reports[i].In(dir), i, owners, owners')
    ensures Owners(reports, i + 1, dir, owners')
  {
    forall j, id | j < i + 1 && HasId(reports, j, dir, id) ensures id in owners' && owners'[id] <= j {
    }
  }

  /** Marking the owners of clashing IDs, and the newcomer, marks everyone who shares an ID. */
  lemma SharesGrow(reports: seq<Reports>, i: nat, dir: Direction, owners: map<nat, nat>, j: nat)
    requires i < |reports| && j <= i && Owners(reports, i, dir, owners)
    ensures j < i ==> (SharesBelow(reports, i + 1, j, dir) <==> SharesBelow(reports, i, j, dir) || Clashes(reports[i].In(dir), owners, j))
    ensures SharesBelow(reports, i + 1, i, dir) <==> AnyClash(reports[i].In(dir), owners)
  {
    var m := reports[i].In(dir);
    if AnyClash(m, owners) {
      var id :| id in m && id in owners;
      assert HasId(reports, owners[id], dir, id) && HasId(reports, i, dir, id);
    }
    if j < i && Clashes(m, owners, j) {
      var id :| id in m && id in owners && owners[id] == j;
      assert HasId(reports, j, dir, id) && HasId(reports, i, dir, id);
    }
    if j < i && SharesBelow(reports, i + 1, j, dir) && !SharesBelow(reports, i, j, dir) {
      var k, id :| k != j && k < i + 1 && HasId(reports, j, dir, id) && HasId(reports, k, dir, id);
      assert k == i;
      assert HasId(reports, owners[id], dir, id);
      assert Clashes(m, owners, j);
    }
  }

  /** An owners map with 0 and something else is a direction mixing unnumbered and numbered reports. */
  lemma MixedOwners(reports: seq<Reports>, dir: Direction, owners: map<nat, nat>)
    requires Owners(reports, |reports|, dir, owners)
    ensures MixedIn(reports, dir) <==> 0 in owners && |owners| > 1
  {
    if MixedIn(reports, dir) {
      var j :| HasId(reports, j, dir, 0);
      var k, id :| id != 0 && HasId(reports, k, dir, id);
      assert {0, id} <= owners.Keys;
      Cardinality({0, id}, owners.Keys);
    }
    if 0 in owners && |owners| > 1 {
      assert HasId(reports, owners[0], dir, 0);
      var others := owners.Keys - {0};
      assert owners.Keys == others + {0} && |owners.Keys| == |others| + 1;
      var id :| id in others;
      assert HasId(reports, owners[id], dir, id);
    }
  }

  ghost predicate SomeEmpty(m: map<nat, nat>) {
    exists id :: id in m && m[id] == 0
  }

  /** One more ID: it gets this owner, unless it has one already, and then both are marked. */
  lemma ClaimOne(seen: map<nat, nat>, id: nat, bits: nat, i: nat, owners: map<nat, nat>, now: map<nat, nat>, marked: seq<bool>, after: seq<bool>)
    requires id !in seen && i < |marked| && (forall x :: x in owners ==> owners[x] < i)
    requires Claimed(seen, i, owners, now) && MarksAdded(seen, i, owners, marked, after)
    ensures id in now <==> id in owners
    ensures id in now ==> Claimed(seen[id := bits], i, owners, now) && MarksAdded(seen[id := bits], i, owners, marked, after[now[id] := true][i := true])
    ensures id !in now ==> Claimed(seen[id := bits], i, owners, now[id := i]) && MarksAdded(seen[id := bits], i, owners, marked, after)
  {
    var more := seen[id := bits];
    assert forall j :: Clashes(more, owners, j) <==> Clashes(seen, owners, j) || (id in owners && owners[id] == j);
    assert AnyClash(more, owners) <==> AnyClash(seen, owners) || id in owners;
  }

  /** One direction of one collection: record its report, claim its IDs, mark clashes on both sides. */
  method Claim(m: map<nat, nat>, i: nat, owners: map<nat, nat>, marked: seq<bool>)
    returns (spec: ReportSpec, empty: bool, owners': map<nat, nat>, marked': seq<bool>)
    requires i < |marked| && forall id :: id in owners ==> owners[id] < i
    ensures SomeReport(spec, m)
    ensures empty <==> SomeEmpty(m)
    ensures Claimed(m, i, owners, owners')
    ensures MarksAdded(m, i, owners, marked, marked')
  {
    spec, empty, owners', marked' := NO_REPORT, false, owners, marked;
    var todo := m.Keys;
    ghost var seen: map<nat, nat> := map[];
    while todo != {}
      invariant todo <= m.Keys && seen.Keys == m.Keys - todo && forall id :: id in seen ==> seen[id] == m[id]
      invariant SomeReport(spec, seen)
      invariant empty <==> SomeEmpty(seen)
      invariant Claimed(seen, i, owners, owners') && MarksAdded(seen, i, owners, marked, marked')
    {
      var id :| id in todo;
      todo := todo - {id};
      ClaimOne(seen, id, m[id], i, owners, owners', marked, marked');
      seen := seen[id := m[id]];
      spec := ReportSpec(id, (m[id] + 7) / 8);
      assert spec == Spec(seen, id);
      if m[id] == 0 {
        empty := true;
      }
      if id in owners' {
        marked' := marked'[owners'[id] := true][i := true];
      } else {
        owners' := owners'[id := i];
      }
    }
    assert seen == m;
  }

  ghost predicate Described(found: seq<Usage>, reports: seq<Reports>, invalid: bool, c: Collection, i: nat)
    requires i < |reports| == |found|
  {
    && c.index == i && c.usage == found[i]
    && SomeReport(c.input, reports[i].input) && SomeReport(c.output, reports[i].output)
    && (c.supported <==> !invalid && OneFullReport(reports[i].input) && OneFullReport(reports[i].output))
  }

  /** Who of the first n collections is marked for sharing an ID with another of them. */
  ghost predicate Marked(reports: seq<Reports>, n: nat, marked: seq<bool>) {
    && n <= |reports| == |marked|
    && (forall j :: 0 <= j < n ==> (marked[j] <==> SharesBelow(reports, n, j, Input) || SharesBelow(reports, n, j, Output)))
    && (forall j :: n <= j < |marked| ==> !marked[j])
  }

  ghost predicate MarksAdded(m: map<nat, nat>, i: nat, owners: map<nat, nat>, marked: seq<bool>, marked': seq<bool>)
    requires i < |marked|
  {
    && |marked'| == |marked|
    && (forall j :: 0 <= j < |marked| && j != i ==> (marked'[j] <==> marked[j] || Clashes(m, owners, j)))
    && (marked'[i] <==> marked[i] || AnyClash(m, owners))
  }

  lemma MarkedGrow(reports: seq<Reports>, i: nat, inOwners: map<nat, nat>, outOwners: map<nat, nat>,
                   marked: seq<bool>, between: seq<bool>, after: seq<bool>)
    requires i < |reports| && Marked(reports, i, marked)
    requires Owners(reports, i, Input, inOwners) && Owners(reports, i, Output, outOwners)
    requires MarksAdded(reports[i].input, i, inOwners, marked, between) && MarksAdded(reports[i].output, i, outOwners, between, after)
    ensures Marked(reports, i + 1, after)
  {
    forall j: nat | j <= i
      ensures after[j] <==> SharesBelow(reports, i + 1, j, Input) || SharesBelow(reports, i + 1, j, Output)
    {
      SharesGrow(reports, i, Input, inOwners, j);
      SharesGrow(reports, i, Output, outOwners, j);
    }
    assert forall j :: i < j < |after| ==> !Clashes(reports[i].input, inOwners, j) && !Clashes(reports[i].output, outOwners, j);
  }

  method Describe(usage: Usage, r: Reports, invalid: bool, i: nat, inOwners: map<nat, nat>, outOwners: map<nat, nat>, marked: seq<bool>)
    returns (c: Collection, inNow: map<nat, nat>, outNow: map<nat, nat>, ghost between: seq<bool>, after: seq<bool>)
    requires i < |marked|
    requires (forall id :: id in inOwners ==> inOwners[id] < i) && (forall id :: id in outOwners ==> outOwners[id] < i)
    ensures c.index == i && c.usage == usage && SomeReport(c.input, r.input) && SomeReport(c.output, r.output)
    ensures c.supported <==> !invalid && OneFullReport(r.input) && OneFullReport(r.output)
    ensures Claimed(r.input, i, inOwners, inNow) && Claimed(r.output, i, outOwners, outNow)
    ensures MarksAdded(r.input, i, inOwners, marked, between) && MarksAdded(r.output, i, outOwners, between, after)
  {
    var supported := !invalid && |r.input| == 1 && |r.output| == 1;
    var inSpec, inEmpty, now;
    inSpec, inEmpty, inNow, now := Claim(r.input, i, inOwners, marked);
    between := now;
    var outSpec, outEmpty;
    outSpec, outEmpty, outNow, after := Claim(r.output, i, outOwners, now);
    if inEmpty || outEmpty {
      supported := false;
    }
    c := Collection(i, usage, inSpec, outSpec, supported);
  }

  /** After the first n collections: who owns each ID, and who is marked. */
  ghost predicate Settled(reports: seq<Reports>, n: nat, inOwners: map<nat, nat>, outOwners: map<nat, nat>, marked: seq<bool>) {
    Marked(reports, n, marked) && Owners(reports, n, Input, inOwners) && Owners(reports, n, Output, outOwners)
  }

  lemma SettledGrow(reports: seq<Reports>, i: nat, inOwners: map<nat, nat>, outOwners: map<nat, nat>, marked: seq<bool>,
                    inNow: map<nat, nat>, outNow: map<nat, nat>, between: seq<bool>, after: seq<bool>)
    requires i < |reports| && Settled(reports, i, inOwners, outOwners, marked)
    requires Claimed(reports[i].input, i, inOwners, inNow) && Claimed(reports[i].output, i, outOwners, outNow)
    requires MarksAdded(reports[i].input, i, inOwners, marked, between) && MarksAdded(reports[i].output, i, outOwners, between, after)
    ensures Settled(reports, i + 1, inNow, outNow, after)
  {
    MarkedGrow(reports, i, inOwners, outOwners, marked, between, after);
    OwnersGrow(reports, i, Input, inOwners, inNow);
    OwnersGrow(reports, i, Output, outOwners, outNow);
  }

  ghost predicate AllDescribed(found: seq<Usage>, reports: seq<Reports>, invalid: bool, out: seq<Collection>)
    requires |out| <= |reports| == |found|
  {
    forall j :: 0 <= j < |out| ==> Described(found, reports, invalid, out[j], j)
  }

  method DescribeAll(found: seq<Usage>, reports: seq<Reports>, invalid: bool)
    returns (out: seq<Collection>, inOwners: map<nat, nat>, outOwners: map<nat, nat>, marked: seq<bool>)
    requires |found| == |reports|
    ensures |out| == |reports| && Settled(reports, |reports|, inOwners, outOwners, marked)
    ensures AllDescribed(found, reports, invalid, out)
  {
    out, inOwners, outOwners, marked := [], map[], map[], seq(|reports|, _ => false);
    for i := 0 to |reports|
      invariant |out| == i && Settled(reports, i, inOwners, outOwners, marked) && AllDescribed(found, reports, invalid, out)
    {
      var c, inNow, outNow, between, after := Describe(found[i], reports[i], invalid, i, inOwners, outOwners, marked);
      assert Settled(reports, i + 1, inNow, outNow, after) by {
        SettledGrow(reports, i, inOwners, outOwners, marked, inNow, outNow, between, after);
      }
      assert Described(found, reports, invalid, c, i);
      out, inOwners, outOwners, marked := out + [c], inNow, outNow, after;
    }
  }

  /** Numbered and unnumbered reports cannot share a direction. */
  method MarkMixed(reports: seq<Reports>, inOwners: map<nat, nat>, outOwners: map<nat, nat>, before: seq<bool>) returns (marked: seq<bool>)
    requires |before| == |reports|
    ensures |marked| == |reports|
    ensures forall j :: 0 <= j < |reports| ==>
                          (marked[j] <==> || before[j]
                                          || (0 in inOwners && |inOwners| > 1 && |reports[j].input| > 0)
                                          || (0 in outOwners && |outOwners| > 1 && |reports[j].output| > 0))
  {
    marked := before;
    for i := 0 to |reports|
      invariant |marked| == |reports|
      invariant forall j :: i <= j < |reports| ==> marked[j] == before[j]
      invariant forall j :: 0 <= j < i ==>
                              (marked[j] <==> || before[j]
                                              || (0 in inOwners && |inOwners| > 1 && |reports[j].input| > 0)
                                              || (0 in outOwners && |outOwners| > 1 && |reports[j].output| > 0))
    {
      if (0 in inOwners && |inOwners| > 1 && |reports[i].input| > 0) || (0 in outOwners && |outOwners| > 1 && |reports[i].output| > 0) {
        marked := marked[i := true];
      }
    }
  }

  /** Every marked collection loses its support; nothing else about it changes. */
  method Withdraw(described: seq<Collection>, marked: seq<bool>) returns (out: seq<Collection>)
    requires |marked| == |described|
    ensures |out| == |described|
    ensures forall j :: 0 <= j < |out| ==> out[j] == described[j].(supported := described[j].supported && !marked[j])
  {
    out := described;
    for i := 0 to |marked|
      invariant |out| == |described|
      invariant forall j :: 0 <= j < |out| ==> out[j] == described[j].(supported := described[j].supported && !(j < i && marked[j]))
    {
      if marked[i] {
        out := out[i := out[i].(supported := false)];
      }
    }
  }

  class Parser {
    var usagesFound: seq<Usage>
    var reports: seq<Reports>
    var global: Globals
    var stack: seq<Globals>
    var open: seq<int>
    var usages: seq<U32>
    var minimum: U32
    var hasMinimum: bool
    var invalidLayout: bool

    ghost function View(): PState
      reads this
    {
      PState(usagesFound, reports, global, stack, open, usages, minimum, hasMinimum, invalidLayout)
    }

    constructor ()
      ensures View() == Fresh()
    {
      usagesFound, reports, global, stack, open := [], [], Globals(0, 0, 0, 0), [], [];
      usages, minimum, hasMinimum, invalidLayout := [], 0, false, false;
    }

    method ApplyGlobal(tag: nat, value: U32) returns (err: Option<ParseError>)
      modifies this`global, this`stack, this`invalidLayout
      ensures match GlobalItem(old(View()), tag, value)
              case Ok(p) => err == None && View() == p
              case Err(e) => err == Some(e)
    {
      err := None;
      match tag {
        case 0 =>
          if value > 0xffff {
            return Some(UsagePageRange);
          }
          global := global.(page := value);
        case 7 => global := global.(size := value);
        case 8 =>
          if value > 255 {
            return Some(ReportIdRange);
          }
          if value == 0 {
            invalidLayout := true;
          }
          global := global.(id := value);
        case 9 => global := global.(count := value);
        case 10 =>
          if |stack| == MAX_DEPTH {
            return Some(GlobalDepth);
          }
          stack := stack + [global];
        case 11 =>
          if |stack| == 0 {
            return Some(GlobalUnderflow);
          }
          global, stack := stack[|stack| - 1], stack[..|stack| - 1];
        case _ =>
      }
    }

    method ApplyLocal(tag: nat, value: U32) returns (err: Option<ParseError>)
      modifies this`usages, this`minimum, this`hasMinimum
      ensures match LocalItem(old(View()), tag, value)
              case Ok(p) => err == None && View() == p
              case Err(e) => err == Some(e)
    {
      err := None;
      match tag {
        case 0 =>
          if |usages| >= MAX_USAGES {
            return Some(TooManyUsages);
          }
          usages := usages + [value];
        case 1 => minimum, hasMinimum := value, true;
        case 2 =>
          if !hasMinimum || value < minimum {
            return Some(UsageRange);
          }
        case 10 => return Some(Delimiters);
        case _ =>
      }
    }

    method ApplyMain(tag: nat, value: U32) returns (err: Option<ParseError>)
      requires WellFormed(View())
      modifies this`usagesFound, this`reports, this`open, this`usages, this`hasMinimum
      ensures match MainItem(old(View()), tag, value)
              case Ok(p) => err == None && View() == p
              case Err(e) => err == Some(e)
    {
      var named := usages;
      usages, hasMinimum := [], false;
      var current := if |open| == 0 then -1 else open[|open| - 1];
      err := None;
      if tag == 10 {
        if |open| == MAX_DEPTH {
          return Some(CollectionDepth);
        }
        if |open| == 0 && value == 1 {
          if |usagesFound| == MAX_COLLECTIONS {
            return Some(TooManyCollections);
          }
          var usage := if |named| != 0 then named[0] else minimum;
          current := |usagesFound|;
          usagesFound := usagesFound + [Resolve(global.page, usage)];
          reports := reports + [Reports(map[], map[])];
        }
        open := open + [current];
      } else if tag == 12 {
        if |open| == 0 {
          return Some(CollectionUnderflow);
        }
        open := open[..|open| - 1];
      } else if tag == 8 || tag == 9 || tag == 11 {
        var bits := (global.size * global.count) % 0x1_0000_0000_0000_0000;
        if bits > MAX_REPORT_BITS {
          return Some(ReportTooLong);
        }
        if current < 0 {
          return Some(ReportOutside);
        }
        if tag == 11 {
          return None;
        }
        var r := reports[current];
        var target := if tag == 8 then r.input else r.output;
        var before := if global.id in target then target[global.id] else 0;
        if before > MAX_REPORT_BITS - bits {
          return Some(ReportTooLong);
        }
        target := target[global.id := before + bits];
        reports := reports[current := if tag == 8 then r.(input := target) else r.(output := target)];
      }
    }

    method Apply(kind: nat, tag: nat, value: U32) returns (err: Option<ParseError>)
      requires WellFormed(View())
      modifies this
      ensures match StepItem(old(View()), Item(kind, tag, value))
              case Ok(p) => err == None && View() == p
              case Err(e) => err == Some(e)
    {
      if kind == 0 {
        err := ApplyMain(tag, value);
      } else if kind == 1 {
        err := ApplyGlobal(tag, value);
      } else if kind == 2 {
        err := ApplyLocal(tag, value);
      } else {
        err := Some(ReservedItem);
      }
    }

    /** Which collections may be opened, and with which reports. */
    method Finish() returns (out: seq<Collection>)
      requires WellFormed(View())
      ensures |out| == |reports|
      ensures forall i :: 0 <= i < |out| ==> out[i].index == i && out[i].usage == usagesFound[i]
      ensures forall i :: 0 <= i < |out| ==> SomeReport(out[i].input, reports[i].input) && SomeReport(out[i].output, reports[i].output)
      ensures forall i :: 0 <= i < |out| ==> (out[i].supported <==> SupportedIn(View(), i))
    {
      var inOwners, outOwners, marked;
      out, inOwners, outOwners, marked := DescribeAll(usagesFound, reports, invalidLayout);
      ghost var described, shared := out, marked;
      MixedOwners(reports, Input, inOwners);
      MixedOwners(reports, Output, outOwners);
      marked := MarkMixed(reports, inOwners, outOwners, marked);
      out := Withdraw(out, marked);
      forall i | 0 <= i < |out| ensures out[i].supported <==> SupportedIn(View(), i) {
        assert Described(usagesFound, reports, invalidLayout, described[i], i);
        assert shared[i] <==> Shares(reports, i, Input) || Shares(reports, i, Output);
        DecidedByDirection(reports, i);
      }
    }
  }

  // ----- Parse ---------------------------------------------------------------------------------

  /** A little-endian value of up to four bytes. */
  method ReadValue(data: seq<Byte>, pos: nat, size: nat) returns (value: U32)
    requires size <= 4 && pos + size <= |data|
    ensures value == Le(data[pos..pos + size])
  {
    value := 0;
    var scale: nat := 1;
    for i := 0 to size
      invariant value == Le(data[pos..pos + i])
      invariant scale == (if i == 0 then 1 else if i == 1 then 0x100 else if i == 2 then 0x1_0000 else if i == 3 then 0x100_0000 else 0x1_0000_0000)
    {
      assert data[pos..pos + i + 1] == data[pos..pos + i] + [data[pos + i]];
      value := value + data[pos + i] * scale;
      scale := scale * 0x100;
    }
  }

  /** The layout of a collection is the one report it has in each direction, rounded up to whole bytes. */
  ghost predicate ExactLayout(fields: seq<Field>, app: nat, dir: Direction, spec: ReportSpec) {
    && SoleReport(fields, app, dir, spec.id)
    && spec.size == (Bits(fields, app, dir, spec.id) + 7) / 8
    && 1 <= spec.size <= 4096
  }

  /** The collections are the descriptor's Application collections, supported exactly when usable. */
  ghost predicate Decides(cs: seq<Collection>, items: seq<Item>) {
    && |cs| == ContextAfter(items).apps
    && (forall i :: 0 <= i < |cs| ==> cs[i].index == i)
    && (forall i :: 0 <= i < |cs| ==> (cs[i].supported <==> Usable(items, i)))
    && (forall i :: 0 <= i < |cs| && cs[i].supported ==>
      ExactLayout(Fields(items), i, Input, cs[i].input) && ExactLayout(Fields(items), i, Output, cs[i].output))
  }

  lemma LayoutExact(reports: seq<Reports>, fields: seq<Field>, i: nat, dir: Direction, spec: ReportSpec)
    requires TracksFields(reports, fields) && i < |reports|
    requires HasSole(fields, i, dir) && SomeReport(spec, reports[i].In(dir))
    ensures ExactLayout(fields, i, dir, spec)
  {
    var id: nat :| SoleReport(fields, i, dir, id);
    TracksHasId(reports, fields, i, dir, id);
    TracksHasId(reports, fields, i, dir, spec.id);
  }

  /** One short item at a position, and the position after it. */
  method ReadItem(data: seq<Byte>, start: nat) returns (r: Result<(Item, nat), ParseError>)
    requires start < |data|
    ensures r == NextItem(data[start..])
  {
    ghost var rest := data[start..];
    var pos := start;
    var prefix := data[pos];
    pos := pos + 1;
    if prefix == 0xfe {
      return Err(LongItem);
    }
    var size := prefix % 4;
    if size == 3 {
      size := 4;
    }
    if size > |data| - pos {
      return Err(TruncatedItem);
    }
    var value := ReadValue(data, pos, size);
    assert rest[1..1 + size] == data[pos..pos + size];
    r := Ok((Item((prefix / 4) % 4, prefix / 16, value), 1 + size));
  }

  method ParseAll(data: seq<Byte>) returns (p: Parser, err: Option<ParseError>)
    ensures match ParseFrom(Fresh(), data)
            case Ok(q) => err == None && p.View() == q
            case Err(e) => err == Some(e)
  {
    p := new Parser();
    var pos := 0;
    assert data[0..] == data;
    while pos < |data|
      invariant pos <= |data| && WellFormed(p.View()) && fresh(p)
      invariant ParseFrom(Fresh(), data) == ParseFrom(p.View(), data[pos..])
      decreases |data| - pos
    {
      ghost var rest, before := data[pos..], p.View();
      var read := ReadItem(data, pos);
      if read.Err? {
        return p, Some(read.error);
      }
      var item := read.value.0;
      pos := pos + read.value.1;
      assert rest[read.value.1..] == data[pos..];
      err := p.Apply(item.kind, item.tag, item.value);
      if err != None {
        return;
      }
      StepWellFormed(before, item);
    }
    assert data[pos..] == [];
    err := None;
  }

  /** Parse: the collections it reports are decided by the descriptor alone, whatever order the maps were walked in. */
  method ParseDescriptor(data: seq<Byte>) returns (r: Result<seq<Collection>, ParseError>)
    ensures match ParseItems(data)
            case Err(e) => r == Err(e)
            case Ok(p) => r.Ok? && |r.value| == |p.usagesFound| && forall i :: 0 <= i < |r.value| ==> r.value[i].usage == p.usagesFound[i]
    ensures r.Ok? ==> Decode(data).Ok? && Decides(r.value, Decode(data).value)
  {
    if |data| == 0 || |data| > MAX_DESCRIPTOR_SIZE {
      return Err(DescriptorSize);
    }
    var p, err := ParseAll(data);
    if err != None {
      return Err(err.value);
    }
    if |p.open| != 0 || |p.stack| != 0 {
      return Err(Unbalanced);
    }
    var out := p.Finish();
    ParsedMeans(data);
    FinishedDecides(p.View(), Decode(data).value, out);
    r := Ok(out);
  }

  lemma FinishedDecides(p: PState, items: seq<Item>, out: seq<Collection>)
    requires Tracks(p, items) && |out| == |p.reports|
    requires forall i :: 0 <= i < |out| ==> out[i].index == i
    requires forall i :: 0 <= i < |out| ==> SomeReport(out[i].input, p.reports[i].input) && SomeReport(out[i].output, p.reports[i].output)
    requires forall i :: 0 <= i < |out| ==> (out[i].supported <==> SupportedIn(p, i))
    ensures Decides(out, items)
  {
    forall i | 0 <= i < |out|
      ensures out[i].supported <==> Usable(items, i)
      ensures out[i].supported ==> ExactLayout(Fields(items), i, Input, out[i].input) && ExactLayout(Fields(items), i, Output, out[i].output)
    {
      SupportedExact(p, items, i);
      if out[i].supported {
        assert HasSole(Fields(items), i, Input) && HasSole(Fields(items), i, Output);
        LayoutExact(p.reports, Fields(items), i, Input, out[i].input);
        LayoutExact(p.reports, Fields(items), i, Output, out[i].output);
      }
    }
  }

  // ----- Where map order does show -------------------------------------------------------------

  /** An order in which the map might be walked. */
  ghost predicate WalkOf(m: map<nat, nat>, order: seq<nat>) {
    && |order| == |m|
    && (forall k :: 0 <= k < |order| ==> order[k] in m)
    && (forall id :: id in m ==> id in order)
  }

  /** The report a walk leaves behind: that of the last key it visited. */
  function LeftBehind(m: map<nat, nat>, order: seq<nat>): ReportSpec
    requires forall k :: 0 <= k < |order| ==> order[k] in m
  {
    if order == [] then NO_REPORT else Spec(m, order[|order| - 1])
  }

  lemma {:induction false} Enumerated(s: set<nat>) returns (order: seq<nat>)
    ensures |order| == |s| && (forall k :: 0 <= k < |order| ==> order[k] in s) && (forall id :: id in s ==> id in order)
  {
    if s == {} {
      order := [];
    } else {
      var id :| id in s;
      var rest := Enumerated(s - {id});
      order := rest + [id];
    }
  }

  lemma WalkEndingAt(m: map<nat, nat>, id: nat) returns (order: seq<nat>)
    requires id in m
    ensures WalkOf(m, order) && LeftBehind(m, order) == Spec(m, id)
  {
    var rest := Enumerated(m.Keys - {id});
    order := rest + [id];
    assert |m| == |m.Keys| && m.Keys == (m.Keys - {id}) + {id};
  }

  /** The layout recorded for a direction depends on the walk as soon as the collection has two IDs there, and only then. */
  lemma LayoutOrderFree(m: map<nat, nat>)
    ensures |m| <= 1 <==>
            forall one, two :: WalkOf(m, one) && WalkOf(m, two) ==> LeftBehind(m, one) == LeftBehind(m, two)
  {
    if |m| <= 1 {
      forall one, two | WalkOf(m, one) && WalkOf(m, two) ensures LeftBehind(m, one) == LeftBehind(m, two) {
        if |m| == 1 {
          assert |m.Keys| == 1;
          Singleton(m.Keys, one[0], two[0]);
        }
      }
    } else {
      var a :| a in m;
      assert m.Keys == (m.Keys - {a}) + {a} && |m| == |m.Keys|;
      var b :| b in m.Keys - {a};
      var one := WalkEndingAt(m, a);
      var two := WalkEndingAt(m, b);
    }
  }

  /** What `finish` records is what some walk leaves behind, so the dependence is real. */
  lemma EveryReportCanBeLeft(m: map<nat, nat>, spec: ReportSpec)
    ensures SomeReport(spec, m) <==> exists order :: WalkOf(m, order) && LeftBehind(m, order) == spec
  {
    if SomeReport(spec, m) {
      if m == map[] {
        assert WalkOf(m, []) && LeftBehind(m, []) == spec;
      } else {
        var id :| id in m && spec == Spec(m, id);
        var order := WalkEndingAt(m, id);
      }
    }
    if order :| WalkOf(m, order) && LeftBehind(m, order) == spec {
      if order == [] {
        assert m == map[];
      } else {
        assert order[|order| - 1] in m;
      }
    }
  }
}
