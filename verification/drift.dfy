/** Drift of a live object (internal/gitops/drift.go). */
module Drift {
  // An object drifts from its last applied configuration. A relation says when live covers what
  // was declared, a function says what is reported at each place of the declaration, and the
  // comparison itself appends what it finds.

  import opened Options
  import opened Objects
  import opened Order

  datatype FieldDrift = FieldDrift(path: string, declared: string, live: string)

  const MAX_DRIFT_FIELDS := 20
  const NOT_SET := "not set"

  const IGNORED: set<string> := {
    "metadata.creationTimestamp", "apiVersion", "kind", "metadata.name", "metadata.namespace", "status"
  }

  /** How the standard library writes floats and whole trees. */
  datatype Printer = Printer(float: real -> string, json: Value -> string)

  function Digits(n: nat): string {
    (if n < 10 then "" else Digits(n / 10)) + [('0' as int + n % 10) as char]
  }

  function Decimal(n: int): string {
    if n < 0 then "-" + Digits(-n) else Digits(n)
  }

  function Text(p: Printer, value: Value): string {
    match value
    case Null => NOT_SET
    case Str(text) => text
    case Bool(on) => if on then "true" else "false"
    case Int(number) => Decimal(number)
    case Float(amount) => p.float(amount)
    case _ => p.json(value)
  }

  // ---------------------------------------------------------------------------
  // What the texts say
  // ---------------------------------------------------------------------------

  /** A numeral as it is read, digit by digit from the left. */
  function Numeral(text: string): Option<int> {
    if text == "" then None
    else
      var front, last := text[..|text| - 1], text[|text| - 1];
      if !('0' <= last <= '9') then None
      else
        var digit := last as int - '0' as int;
        if front == "" then Some(digit)
        else match Numeral(front)
          case None => None
          case Some(high) => Some(high * 10 + digit)
  }

  function Number(text: string): Option<int> {
    if text != "" && text[0] == '-' then
      match Numeral(text[1..])
      case None => None
      case Some(n) => Some(-n)
    else Numeral(text)
  }

  lemma {:induction false} DigitsReadBack(n: nat)
    ensures Numeral(Digits(n)) == Some(n) && Digits(n) != "" && '0' <= Digits(n)[0] <= '9'
    ensures Digits(n)[0] == '0' ==> n == 0
  {
    if n >= 10 {
      DigitsReadBack(n / 10);
      var front, last := Digits(n / 10), ('0' as int + n % 10) as char;
      assert Digits(n) == front + [last];
      assert (front + [last])[..|front|] == front && (front + [last])[|front|] == last;
      assert n / 10 * 10 + n % 10 == n;
    }
  }

  /** A number is written so that it reads back, in decimal and without a leading zero. */
  lemma DecimalReadsBack(n: int)
    ensures Number(Decimal(n)) == Some(n)
    ensures Decimal(n)[if n < 0 then 1 else 0] == '0' ==> n == 0
  {
    DigitsReadBack(if n < 0 then -n else n);
    if n < 0 {
      assert Decimal(n)[1..] == Digits(-n);
    }
  }

  /** What a text says of a null, a text, a truth value or a whole number. */
  predicate Tells(text: string, value: Value) {
    match value
    case Null => text == "not set"
    case Str(held) => text == held
    case Bool(on) => text == if on then "true" else "false"
    case Int(number) => Number(text) == Some(number)
    case _ => true
  }

  predicate SameKind(a: Value, b: Value) {
    (a.Int? && b.Int?) || (a.Bool? && b.Bool?) || (a.Str? && b.Str?)
  }

  /** Two values of one kind are written alike only when they are the same. */
  lemma TextsTellApart(p: Printer, a: Value, b: Value)
    ensures Tells(Text(p, a), a)
    ensures SameKind(a, b) ==> (Text(p, a) == Text(p, b) <==> a == b)
  {
    if a.Int? {
      DecimalReadsBack(a.number);
    }
    if b.Int? {
      DecimalReadsBack(b.number);
    }
  }

  function Entries(count: nat): string {
    if count == 1 then "1 entry" else Decimal(count) + " entries"
  }

  /** A text that counts entries says how many. */
  lemma EntriesTell(count: nat)
    ensures Entries(count) == "1 entry" <==> count == 1
    ensures count != 1 ==> |Entries(count)| > 8 && Number(Entries(count)[..|Entries(count)| - 8]) == Some(count)
  {
    DecimalReadsBack(count);
    if count != 1 {
      assert Entries(count)[..|Entries(count)| - 8] == Decimal(count);
      assert Entries(count)[|Entries(count)| - 1] == 's';
      assert "1 entry"[6] == 'y';
    }
  }

  function Join(prefix: string, key: string): string {
    if prefix == "" then key else prefix + "." + key
  }

  function Bracket(path: string, inside: string): string {
    path + "[" + inside + "]"
  }

  function NameOf(entry: map<string, Value>): string {
    if "name" in entry && entry["name"].Str? then entry["name"].text else ""
  }

  predicate HasName(entry: Value) {
    entry.Obj? && NameOf(entry.fields) != ""
  }

  predicate Named(items: seq<Value>) {
    items != [] && forall i | 0 <= i < |items| :: HasName(items[i])
  }

  /** The last of the live entries going by a name. */
  function LastNamed(items: seq<Value>, name: string): Option<Value> {
    if items == [] then None
    else
      var last := items[|items| - 1];
      if last.Obj? && NameOf(last.fields) == name then Some(last) else LastNamed(items[..|items| - 1], name)
  }

  /** The last live object that bears the name stands for it. */
  lemma {:induction false} LastNamedIff(items: seq<Value>, name: string, found: Value)
    requires name != ""
    ensures LastNamed(items, name) == Some(found) <==>
            exists i | 0 <= i < |items| :: items[i] == found && Bears(items[i], name) && forall j | i < j < |items| :: !Bears(items[j], name)
    ensures LastNamed(items, name).None? <==> forall i | 0 <= i < |items| :: !Bears(items[i], name)
  {
    if items != [] {
      var front, last := items[..|items| - 1], items[|items| - 1];
      LastNamedIff(front, name, found);
      assert Bears(last, name) <==> last.Obj? && NameOf(last.fields) == name;
      if Bears(last, name) {
        assert items[|items| - 1] == last;
      } else if i :| 0 <= i < |front| && front[i] == found && Bears(front[i], name) && forall j | i < j < |front| :: !Bears(front[j], name) {
        assert items[i] == found;
        forall j | i < j < |items| ensures !Bears(items[j], name) {
          if j < |front| { assert items[j] == front[j]; }
        }
      }
    }
  }

  predicate Bears(entry: Value, name: string) {
    entry.Obj? && "name" in entry.fields && entry.fields["name"] == Str(name)
  }

  // ---------------------------------------------------------------------------
  // When live covers declared
  // ---------------------------------------------------------------------------

  predicate CoversFields(p: Printer, declared: Value, live: map<string, Value>, prefix: string)
    requires declared.Obj?
    decreases declared, 0
  {
    forall key | key in declared.fields && Join(prefix, key) !in IGNORED ::
      key in live && CoversValue(p, declared.fields[key], live[key], Join(prefix, key))
  }

  predicate CoversList(p: Printer, declared: Value, live: seq<Value>, path: string)
    requires declared.List?
    decreases declared, 1
  {
    (Named(declared.items) || |declared.items| == |live|) &&
    forall i: nat | i < |declared.items| :: CoversItem(p, declared, live, path, i)
  }

  /** A named list goes by name, any other by position. */
  predicate CoversItem(p: Printer, declared: Value, live: seq<Value>, path: string, i: nat)
    requires declared.List? && i < |declared.items| && (Named(declared.items) || |declared.items| == |live|)
    decreases declared, 0
  {
    var item := declared.items[i];
    if Named(declared.items) then CoversNamed(p, item, LastNamed(live, NameOf(item.fields)), path)
    else CoversEntry(p, item, live[i], Bracket(path, Decimal(i)))
  }

  predicate CoversNamed(p: Printer, declared: Value, live: Option<Value>, path: string)
    requires HasName(declared)
    decreases declared, 2
  {
    live.Some? && CoversEntry(p, declared, live.value, Bracket(path, NameOf(declared.fields)))
  }

  predicate CoversValue(p: Printer, declared: Value, live: Value, path: string)
    decreases declared, 2
  {
    if declared.List? && live.List? then CoversList(p, declared, live.items, path)
    else CoversEntry(p, declared, live, path)
  }

  /** A list inside a list is compared by its text. */
  predicate CoversEntry(p: Printer, declared: Value, live: Value, path: string)
    decreases declared, 1
  {
    if declared.Obj? && live.Obj? then CoversFields(p, declared, live.fields, path)
    else Text(p, declared) == Text(p, live)
  }

  // ---------------------------------------------------------------------------
  // What is reported at each place of the declaration
  // ---------------------------------------------------------------------------

  datatype Step = Key(key: string) | Item(index: nat)

  /** A site is the way from the root to one declared value. */
  type Site = seq<Step>

  /** What there is to compare at one site. */
  datatype Job =
    | Nothing
    | Absent(declared: Value, path: string)
    | Fields(declared: Value, objects: map<string, Value>, path: string)
    | Lists(declared: Value, items: seq<Value>, path: string)
    | Texts(declared: Value, live: Value, path: string)

  predicate Sound(job: Job) {
    (job.Fields? ==> job.declared.Obj?) && (job.Lists? ==> job.declared.List?)
  }

  function ForEntry(declared: Value, live: Value, path: string): (job: Job)
    ensures Sound(job)
  {
    if declared.Obj? && live.Obj? then Fields(declared, live.fields, path) else Texts(declared, live, path)
  }

  function ForValue(declared: Value, live: Value, path: string): (job: Job)
    ensures Sound(job)
  {
    if declared.List? && live.List? then Lists(declared, live.items, path) else ForEntry(declared, live, path)
  }

  function ForKey(declared: Value, live: map<string, Value>, prefix: string, key: string): (job: Job)
    ensures Sound(job)
  {
    if !declared.Obj? || key !in declared.fields || Join(prefix, key) in IGNORED then Nothing
    else if key !in live then Absent(declared.fields[key], Join(prefix, key))
    else ForValue(declared.fields[key], live[key], Join(prefix, key))
  }

  function ForNamed(declared: Value, live: Option<Value>, path: string): (job: Job)
    requires HasName(declared)
    ensures Sound(job)
  {
    var here := Bracket(path, NameOf(declared.fields));
    if live.None? then Absent(declared, here) else ForEntry(declared, live.value, here)
  }

  function ForItem(declared: Value, live: seq<Value>, path: string, i: nat): (job: Job)
    ensures Sound(job)
  {
    if !declared.List? || i >= |declared.items| then Nothing
    else if Named(declared.items) then
      ForNamed(declared.items[i], LastNamed(live, NameOf(declared.items[i].fields)), path)
    else if |declared.items| == |live| then ForEntry(declared.items[i], live[i], Bracket(path, Decimal(i)))
    else Nothing
  }

  function Under(job: Job, step: Step): (sub: Job)
    ensures Sound(sub)
  {
    if job.Fields? && step.Key? then ForKey(job.declared, job.objects, job.path, step.key)
    else if job.Lists? && step.Item? then ForItem(job.declared, job.items, job.path, step.index)
    else Nothing
  }

  function Here(p: Printer, job: Job): Option<FieldDrift> {
    match job
    case Absent(declared, path) => Some(FieldDrift(path, Text(p, declared), NOT_SET))
    case Texts(declared, live, path) =>
      if Text(p, declared) == Text(p, live) then None
      else Some(FieldDrift(path, Text(p, declared), Text(p, live)))
    case Lists(declared, live, path) =>
      if !declared.List? || Named(declared.items) || |declared.items| == |live| then None
      else Some(FieldDrift(path, Entries(|declared.items|), Entries(|live|)))
    case _ => None
  }

  function DriftAt(p: Printer, job: Job, site: Site): Option<FieldDrift>
    decreases |site|
  {
    if site == [] then Here(p, job) else DriftAt(p, Under(job, site[0]), site[1..])
  }

  ghost predicate Drifts(p: Printer, job: Job) {
    exists site :: DriftAt(p, job, site).Some?
  }

  ghost predicate CoveredJob(p: Printer, job: Job)
    requires Sound(job)
  {
    match job
    case Nothing => true
    case Absent(_, _) => false
    case Fields(declared, live, path) => CoversFields(p, declared, live, path)
    case Lists(declared, live, path) => CoversList(p, declared, live, path)
    case Texts(declared, live, _) => Text(p, declared) == Text(p, live)
  }

  lemma DriftBelow(p: Printer, job: Job, step: Step)
    requires Drifts(p, Under(job, step))
    ensures Drifts(p, job)
  {
    var site :| DriftAt(p, Under(job, step), site).Some?;
    assert ([step] + site)[1..] == site;
    assert DriftAt(p, job, [step] + site).Some?;
  }

  lemma NothingNeverDrifts(p: Printer, job: Job, site: Site)
    requires Sound(job) && (job.Nothing? || (job.Texts? && Text(p, job.declared) == Text(p, job.live)))
    ensures DriftAt(p, job, site).None?
    decreases |site|
  {
    if site != [] {
      NothingNeverDrifts(p, Under(job, site[0]), site[1..]);
    }
  }

  /** Nothing is reported anywhere exactly when live covers declared. */
  lemma {:induction false} CoveredIffNoDrift(p: Printer, job: Job)
    requires Sound(job)
    ensures CoveredJob(p, job) <==> !Drifts(p, job)
    decreases if job.Nothing? then Null else job.declared
  {
    match job
    case Nothing =>
      forall site: Site ensures DriftAt(p, job, site).None? { NothingNeverDrifts(p, job, site); }
    case Absent(_, _) => assert DriftAt(p, job, []).Some?;
    case Texts(_, _, _) =>
      if CoveredJob(p, job) {
        forall site: Site ensures DriftAt(p, job, site).None? { NothingNeverDrifts(p, job, site); }
      } else {
        assert DriftAt(p, job, []).Some?;
      }
    case Fields(declared, live, path) => FieldsCovered(p, job);
    case Lists(declared, live, path) => ListsCovered(p, job);
  }

  lemma {:induction false} FieldsCovered(p: Printer, job: Job)
    requires job.Fields? && Sound(job)
    ensures CoveredJob(p, job) <==> !Drifts(p, job)
    decreases job.declared, 0
  {
    forall key | key in job.declared.fields && Join(job.path, key) !in IGNORED
      ensures (key in job.objects && CoversValue(p, job.declared.fields[key], job.objects[key], Join(job.path, key)))
              <==> !Drifts(p, Under(job, Key(key)))
    {
      CoveredIffNoDrift(p, Under(job, Key(key)));
    }
    if CoveredJob(p, job) {
      forall site: Site ensures DriftAt(p, job, site).None? {
        if site != [] && Under(job, site[0]).Nothing? {
          NothingNeverDrifts(p, Under(job, site[0]), site[1..]);
        } else if site != [] {
          assert !Drifts(p, Under(job, Key(site[0].key)));
        }
      }
    } else {
      var key :| key in job.declared.fields && Join(job.path, key) !in IGNORED && Drifts(p, Under(job, Key(key)));
      DriftBelow(p, job, Key(key));
    }
  }

  lemma EntryCovered(p: Printer, declared: Value, live: Value, path: string)
    ensures CoversEntry(p, declared, live, path) <==> CoveredJob(p, ForEntry(declared, live, path))
  {}

  lemma ItemCovered(p: Printer, job: Job, i: nat)
    requires job.Lists? && Sound(job) && i < |job.declared.items| && Here(p, job).None?
    ensures CoversItem(p, job.declared, job.items, job.path, i) <==> CoveredJob(p, Under(job, Item(i)))
  {
    var item := job.declared.items[i];
    if Named(job.declared.items) {
      var found := LastNamed(job.items, NameOf(item.fields));
      if found.Some? {
        EntryCovered(p, item, found.value, Bracket(job.path, NameOf(item.fields)));
      }
    } else {
      EntryCovered(p, item, job.items[i], Bracket(job.path, Decimal(i)));
    }
  }

  lemma {:induction false} ListsCovered(p: Printer, job: Job)
    requires job.Lists? && Sound(job)
    ensures CoveredJob(p, job) <==> !Drifts(p, job)
    decreases job.declared, 0
  {
    var items := job.declared.items;
    if Here(p, job).Some? {
      assert DriftAt(p, job, []).Some?;
      return;
    }
    forall i: nat | i < |items|
      ensures CoversItem(p, job.declared, job.items, job.path, i) <==> !Drifts(p, Under(job, Item(i)))
    {
      CoveredIffNoDrift(p, Under(job, Item(i)));
      ItemCovered(p, job, i);
    }
    if forall i: nat | i < |items| :: CoversItem(p, job.declared, job.items, job.path, i) {
      assert CoveredJob(p, job);
      forall site: Site ensures DriftAt(p, job, site).None? {
        if site != [] && Under(job, site[0]).Nothing? {
          NothingNeverDrifts(p, Under(job, site[0]), site[1..]);
        } else if site != [] {
          assert !Drifts(p, Under(job, Item(site[0].index)));
        }
      }
    } else {
      var i: nat :| i < |items| && !CoversItem(p, job.declared, job.items, job.path, i);
      DriftBelow(p, job, Item(i));
    }
  }

  // ---------------------------------------------------------------------------
  // An object against itself
  // ---------------------------------------------------------------------------

  /** In every named list each entry is covered by the last one going by its name. */
  predicate LastsCover(p: Printer, value: Value, path: string)
    decreases value, 1
  {
    match value
    case Obj(fields) =>
      forall key | key in fields && Join(path, key) !in IGNORED :: LastsCover(p, fields[key], Join(path, key))
    case List(items) => forall i: nat | i < |items| :: LastCovers(p, value, path, i)
    case _ => true
  }

  predicate LastCovers(p: Printer, list: Value, path: string, i: nat)
    requires list.List? && i < |list.items|
    decreases list, 0
  {
    var item := list.items[i];
    if Named(list.items) then
      var last := LastNamed(list.items, NameOf(item.fields));
      var here := Bracket(path, NameOf(item.fields));
      last.Some? && if last.value == item then LastsCover(p, item, here) else CoversEntry(p, item, last.value, here)
    else item.Obj? ==> LastsCover(p, item, Bracket(path, Decimal(i)))
  }

  lemma EntryCoversItself(p: Printer, entry: Value, path: string)
    requires entry.Obj? ==> (CoversValue(p, entry, entry, path) <==> LastsCover(p, entry, path))
    ensures CoversEntry(p, entry, entry, path) <==> (entry.Obj? ==> LastsCover(p, entry, path))
  {}

  /** Exactly when an object shows no drift against itself. */
  lemma {:induction false} CoversItselfIff(p: Printer, value: Value, path: string)
    ensures CoversValue(p, value, value, path) <==> LastsCover(p, value, path)
    decreases value
  {
    match value
    case Obj(fields) =>
      forall key | key in fields { CoversItselfIff(p, fields[key], Join(path, key)); }
      assert CoversValue(p, value, value, path) <==> CoversFields(p, value, fields, path);
    case List(items) =>
      forall i: nat | i < |items|
        ensures CoversItem(p, value, items, path, i) <==> LastCovers(p, value, path, i)
      {
        var here := if Named(items) then Bracket(path, NameOf(items[i].fields)) else Bracket(path, Decimal(i));
        CoversItselfIff(p, items[i], here);
        EntryCoversItself(p, items[i], here);
      }
      assert CoversValue(p, value, value, path) <==> CoversList(p, value, items, path);
    case _ =>
  }

  predicate UniqueNames(value: Value) {
    match value
    case Obj(fields) => forall key | key in fields :: UniqueNames(fields[key])
    case List(items) =>
      (Named(items) ==> Distinct(items)) && forall i | 0 <= i < |items| :: UniqueNames(items[i])
    case _ => true
  }

  predicate Distinct(items: seq<Value>)
    requires Named(items)
  {
    forall i, j | 0 <= i < j < |items| :: NameOf(items[i].fields) != NameOf(items[j].fields)
  }

  lemma {:induction false} LastNamedIs(items: seq<Value>, name: string, i: nat)
    requires i < |items| && items[i].Obj? && NameOf(items[i].fields) == name
    requires forall j | i < j < |items| :: items[j].Obj? && NameOf(items[j].fields) != name
    ensures LastNamed(items, name) == Some(items[i])
  {
    if i < |items| - 1 {
      LastNamedIs(items[..|items| - 1], name, i);
    }
  }

  lemma {:induction false} UniqueLastsCover(p: Printer, value: Value, path: string)
    requires UniqueNames(value)
    ensures LastsCover(p, value, path)
    decreases value
  {
    match value
    case Obj(fields) =>
      forall key | key in fields { UniqueLastsCover(p, fields[key], Join(path, key)); }
    case List(items) =>
      forall i: nat | i < |items| ensures LastCovers(p, value, path, i) {
        if Named(items) {
          LastNamedIs(items, NameOf(items[i].fields), i);
          UniqueLastsCover(p, items[i], Bracket(path, NameOf(items[i].fields)));
        } else {
          UniqueLastsCover(p, items[i], Bracket(path, Decimal(i)));
        }
      }
    case _ =>
  }

  /** An object whose named lists have no name twice never drifts from itself. */
  lemma NoDriftFromItself(p: Printer, value: Value, site: Site)
    requires value.Obj? && UniqueNames(value)
    ensures DriftAt(p, Fields(value, value.fields, ""), site).None?
  {
    UniqueLastsCover(p, value, "");
    CoversItselfIff(p, value, "");
    CoveredIffNoDrift(p, Fields(value, value.fields, ""));
  }

  function Entry(name: string, on: bool): Value {
    Obj(map["name" := Str(name), "on" := Bool(on)])
  }

  /** With a name twice in one list an object does drift from itself. */
  lemma SameNameTwiceDrifts(p: Printer)
    ensures var ports := Obj(map["ports" := List([Entry("a", true), Entry("a", false)])]);
            DriftAt(p, Fields(ports, ports.fields, ""), [Key("ports"), Item(0), Key("on")]).Some?
  {
    var first, second := Entry("a", true), Entry("a", false);
    var items := [first, second];
    var ports := Obj(map["ports" := List(items)]);
    assert NameOf(first.fields) == "a" && NameOf(second.fields) == "a";
    LastNamedIs(items, "a", 1);
    var site := [Key("ports"), Item(0), Key("on")];
    assert site[1..] == [Item(0), Key("on")] && site[1..][1..] == [Key("on")] && site[1..][1..][1..] == [];
    var job := Fields(ports, ports.fields, "");
    assert Under(job, Key("ports")) == Lists(List(items), items, "ports") by {
      assert Join("", "ports") == "ports";
    }
    var named := Under(Under(job, Key("ports")), Item(0));
    assert named == Fields(first, second.fields, Bracket("ports", "a"));
    assert Join(named.path, "on") !in IGNORED by { assert Join(named.path, "on")[5] == '['; }
    assert Under(named, Key("on")) == Texts(Bool(true), Bool(false), Join(named.path, "on"));
  }

  // ---------------------------------------------------------------------------
  // What live has beyond the declaration
  // ---------------------------------------------------------------------------

  /** Two live objects that differ only in keys, or named entries, nobody declared. */
  predicate SameFields(declared: Value, a: map<string, Value>, b: map<string, Value>)
    requires declared.Obj?
    decreases declared, 1
  {
    forall key | key in declared.fields :: SameField(declared, a, b, key)
  }

  predicate SameField(declared: Value, a: map<string, Value>, b: map<string, Value>, key: string)
    requires declared.Obj? && key in declared.fields
    decreases declared, 0
  {
    (key in a <==> key in b) && (key in a ==> SameValue(declared.fields[key], a[key], b[key]))
  }

  predicate SameValue(declared: Value, a: Value, b: Value)
    decreases declared, 3
  {
    a == b || SameEntry(declared, a, b) || (declared.List? && a.List? && b.List? && SameItems(declared, a.items, b.items))
  }

  predicate SameEntry(declared: Value, a: Value, b: Value)
    decreases declared, 2
  {
    a == b || (declared.Obj? && a.Obj? && b.Obj? && SameFields(declared, a.fields, b.fields))
  }

  predicate SameItems(declared: Value, a: seq<Value>, b: seq<Value>)
    requires declared.List?
    decreases declared, 1
  {
    (Named(declared.items) || |a| == |b|) &&
    forall i: nat | i < |declared.items| :: SameItem(declared, a, b, i)
  }

  predicate SameItem(declared: Value, a: seq<Value>, b: seq<Value>, i: nat)
    requires declared.List? && i < |declared.items|
    decreases declared, 0
  {
    var item := declared.items[i];
    if Named(declared.items) then SameNamed(item, LastNamed(a, NameOf(item.fields)), LastNamed(b, NameOf(item.fields)))
    else i < |a| && i < |b| ==> SameEntry(item, a[i], b[i])
  }

  predicate SameNamed(declared: Value, a: Option<Value>, b: Option<Value>)
    decreases declared, 3
  {
    a == b || (a.Some? && b.Some? && SameEntry(declared, a.value, b.value))
  }

  predicate SameJob(a: Job, b: Job) {
    a == b ||
    match a
    case Fields(declared, live, path) =>
      b.Fields? && b.declared == declared && b.path == path && declared.Obj? && SameFields(declared, live, b.objects)
    case Lists(declared, live, path) =>
      b.Lists? && b.declared == declared && b.path == path && declared.List? && SameItems(declared, live, b.items)
    case _ => false
  }

  lemma SameForEntry(declared: Value, a: Value, b: Value, path: string)
    requires SameEntry(declared, a, b)
    ensures SameJob(ForEntry(declared, a, path), ForEntry(declared, b, path))
  {}

  lemma SameForValue(declared: Value, a: Value, b: Value, path: string)
    requires SameValue(declared, a, b)
    ensures SameJob(ForValue(declared, a, path), ForValue(declared, b, path))
  {
    if SameEntry(declared, a, b) {
      SameForEntry(declared, a, b, path);
    }
  }

  lemma SameUnder(a: Job, b: Job, step: Step)
    requires SameJob(a, b)
    ensures SameJob(Under(a, step), Under(b, step))
  {
    if a == b {
    } else if a.Fields? && step.Key? && step.key in a.declared.fields {
      assert SameField(a.declared, a.objects, b.objects, step.key);
      if step.key in a.objects {
        SameForValue(a.declared.fields[step.key], a.objects[step.key], b.objects[step.key], Join(a.path, step.key));
      }
    } else if a.Lists? && step.Item? && step.index < |a.declared.items| {
      assert SameItem(a.declared, a.items, b.items, step.index);
      var item := a.declared.items[step.index];
      if !Named(a.declared.items) {
        if |a.items| == |a.declared.items| {
          SameForEntry(item, a.items[step.index], b.items[step.index], Bracket(a.path, Decimal(step.index)));
        }
      } else if LastNamed(a.items, NameOf(item.fields)) != LastNamed(b.items, NameOf(item.fields)) {
        var one, other := LastNamed(a.items, NameOf(item.fields)), LastNamed(b.items, NameOf(item.fields));
        assert SameNamed(item, one, other);
        SameForEntry(item, one.value, other.value, Bracket(a.path, NameOf(item.fields)));
      }
    }
  }

  lemma {:induction false} SameDrift(p: Printer, a: Job, b: Job, site: Site)
    requires SameJob(a, b)
    ensures DriftAt(p, a, site) == DriftAt(p, b, site)
    decreases |site|
  {
    if site != [] {
      SameUnder(a, b, site[0]);
      SameDrift(p, Under(a, site[0]), Under(b, site[0]), site[1..]);
    }
  }

  /** Keys and named entries live has and the declaration does not change no report: not what is
      reported and not where. */
  lemma ExtraKeysNeverDrift(p: Printer, declared: Value, a: map<string, Value>, b: map<string, Value>, site: Site)
    requires declared.Obj? && SameFields(declared, a, b)
    ensures DriftAt(p, Fields(declared, a, ""), site) == DriftAt(p, Fields(declared, b, ""), site)
  {
    SameDrift(p, Fields(declared, a, ""), Fields(declared, b, ""), site);
  }

  // ---------------------------------------------------------------------------
  // The comparison itself
  // ---------------------------------------------------------------------------

  /** Each drift there is, once, beside the site it was found at. */
  ghost predicate Reports(p: Printer, job: Job, drifts: seq<FieldDrift>, sites: seq<Site>) {
    |drifts| == |sites| &&
    Apart(sites) &&
    (forall i | 0 <= i < |sites| :: DriftAt(p, job, sites[i]) == Some(drifts[i])) &&
    (forall site | DriftAt(p, job, site).Some? :: site in sites)
  }

  /** A declared value and a live one of its kind stand under one key that is not ignored. */
  predicate Comparable(declared: map<string, Value>, live: map<string, Value>, prefix: string, key: string) {
    key in declared && key in live && SameKind(declared[key], live[key]) &&
    (if prefix == "" then key else prefix + "." + key) !in IGNORED
  }

  /** Of two values of one kind it is reported exactly that they differ, at their own path, and in
      texts that say what they are. */
  ghost predicate ToldByValue(declared: map<string, Value>, live: map<string, Value>, prefix: string, key: string,
                              drifts: seq<FieldDrift>, sites: seq<Site>)
    requires key in declared && key in live && |drifts| == |sites|
  {
    ([Key(key)] in sites <==> declared[key] != live[key]) &&
    forall i | 0 <= i < |sites| && sites[i] == [Key(key)] ::
      drifts[i].path == (if prefix == "" then key else prefix + "." + key) &&
      Tells(drifts[i].declared, declared[key]) && Tells(drifts[i].live, live[key])
  }

  lemma ReportTellsValues(p: Printer, declared: map<string, Value>, live: map<string, Value>, prefix: string, key: string,
                          drifts: seq<FieldDrift>, sites: seq<Site>)
    requires Reports(p, Fields(Obj(declared), live, prefix), drifts, sites) && Comparable(declared, live, prefix, key)
    ensures ToldByValue(declared, live, prefix, key, drifts, sites)
  {
    var job := Fields(Obj(declared), live, prefix);
    TextsTellApart(p, declared[key], live[key]);
    TextsTellApart(p, live[key], declared[key]);
    assert [Key(key)][1..] == [];
    assert DriftAt(p, job, [Key(key)]) == Here(p, Texts(declared[key], live[key], Join(prefix, key)));
  }

  /** What was declared and is not there at all is reported as not set, at its own path. */
  lemma ReportTellsAbsence(p: Printer, declared: map<string, Value>, live: map<string, Value>, prefix: string, key: string,
                           drifts: seq<FieldDrift>, sites: seq<Site>)
    requires Reports(p, Fields(Obj(declared), live, prefix), drifts, sites) && key in declared && key !in live
    requires (if prefix == "" then key else prefix + "." + key) !in IGNORED
    ensures exists i | 0 <= i < |sites| :: sites[i] == [Key(key)] && drifts[i].live == "not set" &&
              drifts[i].path == if prefix == "" then key else prefix + "." + key
  {
    assert [Key(key)][1..] == [];
    assert DriftAt(p, Fields(Obj(declared), live, prefix), [Key(key)]) ==
      Some(FieldDrift(Join(prefix, key), Text(p, declared[key]), NOT_SET));
  }

  /** Nothing is reported of what is ignored, nor of what was not declared. */
  lemma ReportIgnores(p: Printer, declared: map<string, Value>, live: map<string, Value>, prefix: string, key: string,
                      drifts: seq<FieldDrift>, sites: seq<Site>)
    requires Reports(p, Fields(Obj(declared), live, prefix), drifts, sites)
    requires key !in declared || (if prefix == "" then key else prefix + "." + key) in IGNORED
    ensures forall i | 0 <= i < |sites| :: sites[i] != [] ==> sites[i][0] != Key(key)
  {
    var job := Fields(Obj(declared), live, prefix);
    forall i | 0 <= i < |sites| && sites[i] != [] ensures sites[i][0] != Key(key) {
      if sites[i][0] == Key(key) {
        NothingNeverDrifts(p, Under(job, Key(key)), sites[i][1..]);
        assert false;
      }
    }
  }

  // The same at any depth.

  function JobAt(job: Job, site: Site): Job
    decreases |site|
  {
    if site == [] then job else JobAt(Under(job, site[0]), site[1..])
  }

  lemma {:induction false} DriftBelowJob(p: Printer, job: Job, site: Site, below: Site)
    ensures DriftAt(p, job, site + below) == DriftAt(p, JobAt(job, site), below)
    decreases |site|
  {
    if site == [] {
      assert site + below == below;
    } else {
      DriftBelowJob(p, Under(job, site[0]), site[1..], below);
      assert (site + below)[1..] == site[1..] + below;
    }
  }

  /** Wherever in the declaration an object stands against a live one: of two values of one kind
      under one of its keys a drift is reported exactly when they differ. */
  lemma ReportsExactlyWhatDiffers(p: Printer, job: Job, drifts: seq<FieldDrift>, sites: seq<Site>, site: Site,
                                  declared: map<string, Value>, live: map<string, Value>, prefix: string, key: string)
    requires Reports(p, job, drifts, sites) && JobAt(job, site) == Fields(Obj(declared), live, prefix)
    requires Comparable(declared, live, prefix, key)
    ensures site + [Key(key)] in sites <==> declared[key] != live[key]
  {
    DriftBelowJob(p, job, site, [Key(key)]);
    TextsTellApart(p, declared[key], live[key]);
    assert [Key(key)][1..] == [];
    assert DriftAt(p, JobAt(job, site), [Key(key)]) == Here(p, Texts(declared[key], live[key], Join(prefix, key)));
  }

  predicate Apart(sites: seq<Site>) {
    forall i, j | 0 <= i < j < |sites| :: sites[i] != sites[j]
  }

  /** The same for the sites that begin with one of these steps. */
  ghost predicate ReportsUnder(p: Printer, job: Job, heads: set<Step>, drifts: seq<FieldDrift>, sites: seq<Site>) {
    |drifts| == |sites| &&
    Apart(sites) &&
    (forall i | 0 <= i < |sites| ::
      sites[i] != [] && sites[i][0] in heads && DriftAt(p, job, sites[i]) == Some(drifts[i])) &&
    (forall site | DriftAt(p, job, site).Some? :: site != [] && site[0] in heads ==> site in sites)
  }

  function Behind(head: Step, sites: seq<Site>): (behind: seq<Site>)
    ensures |behind| == |sites|
  {
    seq(|sites|, i requires 0 <= i < |sites| => [head] + sites[i])
  }

  lemma BehindApart(head: Step, sites: seq<Site>, below: seq<Site>)
    requires Apart(sites) && Apart(below)
    requires forall i | 0 <= i < |sites| :: sites[i] != [] && sites[i][0] != head
    ensures Apart(sites + Behind(head, below))
  {
    forall i | 0 <= i < |below| ensures Behind(head, below)[i][1..] == below[i] && Behind(head, below)[i][0] == head {}
  }

  lemma BehindDrifts(p: Printer, job: Job, head: Step, more: seq<FieldDrift>, below: seq<Site>)
    requires Reports(p, Under(job, head), more, below)
    ensures forall i | 0 <= i < |below| :: DriftAt(p, job, Behind(head, below)[i]) == Some(more[i])
    ensures forall site: Site | DriftAt(p, job, site).Some? && site != [] && site[0] == head :: site in Behind(head, below)
  {
    forall i | 0 <= i < |below| ensures DriftAt(p, job, Behind(head, below)[i]) == Some(more[i]) {
      assert Behind(head, below)[i][1..] == below[i];
    }
    forall site: Site | DriftAt(p, job, site).Some? && site != [] && site[0] == head
      ensures site in Behind(head, below)
    {
      assert DriftAt(p, Under(job, head), site[1..]).Some?;
      BehindHolds(head, below, site);
    }
  }

  lemma BehindHolds(head: Step, below: seq<Site>, site: Site)
    requires site != [] && site[0] == head && site[1..] in below
    ensures site in Behind(head, below)
  {
    var i :| 0 <= i < |below| && below[i] == site[1..];
    assert Behind(head, below)[i] == site;
  }

  lemma AddHead(p: Printer, job: Job, heads: set<Step>, head: Step,
                drifts: seq<FieldDrift>, sites: seq<Site>, more: seq<FieldDrift>, below: seq<Site>)
    requires ReportsUnder(p, job, heads, drifts, sites) && head !in heads
    requires Reports(p, Under(job, head), more, below)
    ensures ReportsUnder(p, job, heads + {head}, drifts + more, sites + Behind(head, below))
  {
    BehindApart(head, sites, below);
    BehindDrifts(p, job, head, more, below);
    var all, found := sites + Behind(head, below), drifts + more;
    forall i | 0 <= i < |all|
      ensures all[i] != [] && all[i][0] in heads + {head} && DriftAt(p, job, all[i]) == Some(found[i])
    {
      if i >= |sites| {
        assert all[i] == Behind(head, below)[i - |sites|] && found[i] == more[i - |sites|];
      }
    }
  }

  lemma AllHeads(p: Printer, job: Job, heads: set<Step>, drifts: seq<FieldDrift>, sites: seq<Site>)
    requires ReportsUnder(p, job, heads, drifts, sites) && Here(p, job).None?
    requires forall step | step !in heads :: Under(job, step).Nothing?
    ensures Reports(p, job, drifts, sites)
  {
    forall site: Site | DriftAt(p, job, site).Some? ensures site in sites {
      if site[0] !in heads {
        NothingNeverDrifts(p, Under(job, site[0]), site[1..]);
        assert false;
      }
    }
  }

  predicate Leaf(job: Job) {
    job.Nothing? || job.Absent? || job.Texts? ||
    (job.Lists? && job.declared.List? && !Named(job.declared.items) && |job.declared.items| != |job.items|)
  }

  function AtLeaf(p: Printer, job: Job): seq<FieldDrift> {
    if Here(p, job).Some? then [Here(p, job).value] else []
  }

  function LeafSites(p: Printer, job: Job): seq<Site> {
    if Here(p, job).Some? then [[]] else []
  }

  lemma LeafReports(p: Printer, job: Job)
    requires Leaf(job)
    ensures Reports(p, job, AtLeaf(p, job), LeafSites(p, job))
  {
    forall site: Site | site != [] ensures DriftAt(p, job, site).None? {
      NothingNeverDrifts(p, Under(job, site[0]), site[1..]);
    }
  }

  class Found {
    var fields: seq<FieldDrift>

    constructor ()
      ensures fields == []
    {
      fields := [];
    }
  }

  ghost predicate Appended(p: Printer, job: Job, before: seq<FieldDrift>, after: seq<FieldDrift>, sites: seq<Site>) {
    before <= after && Reports(p, job, after[|before|..], sites)
  }

  function ItemsBelow(n: nat): set<Step> {
    set i: nat | i < n :: Item(i)
  }

  lemma AppendItem(p: Printer, job: Job, at: nat, before: seq<FieldDrift>,
                   middle: seq<FieldDrift>, after: seq<FieldDrift>, sites: seq<Site>, below: seq<Site>)
    requires AppendedUnder(p, job, ItemsBelow(at), before, middle, sites)
    requires Appended(p, Under(job, Item(at)), middle, after, below)
    ensures AppendedUnder(p, job, ItemsBelow(at + 1), before, after, sites + Behind(Item(at), below))
  {
    AppendHead(p, job, ItemsBelow(at), Item(at), before, middle, after, sites, below);
    assert ItemsBelow(at + 1) == ItemsBelow(at) + {Item(at)};
  }

  lemma AllItems(p: Printer, job: Job, before: seq<FieldDrift>, after: seq<FieldDrift>, sites: seq<Site>)
    requires job.Lists? && job.declared.List? && Here(p, job).None?
    requires AppendedUnder(p, job, ItemsBelow(|job.declared.items|), before, after, sites)
    ensures Appended(p, job, before, after, sites)
  {
    AllHeads(p, job, ItemsBelow(|job.declared.items|), after[|before|..], sites);
  }

  lemma LeafAppended(p: Printer, job: Job, before: seq<FieldDrift>, after: seq<FieldDrift>)
    requires Leaf(job) && after == before + AtLeaf(p, job)
    ensures Appended(p, job, before, after, LeafSites(p, job))
  {
    LeafReports(p, job);
    assert after[|before|..] == AtLeaf(p, job);
  }

  ghost predicate AppendedUnder(p: Printer, job: Job, heads: set<Step>, before: seq<FieldDrift>, after: seq<FieldDrift>, sites: seq<Site>) {
    before <= after && ReportsUnder(p, job, heads, after[|before|..], sites)
  }

  lemma AppendHead(p: Printer, job: Job, heads: set<Step>, head: Step, before: seq<FieldDrift>,
                   middle: seq<FieldDrift>, after: seq<FieldDrift>, sites: seq<Site>, below: seq<Site>)
    requires AppendedUnder(p, job, heads, before, middle, sites) && head !in heads
    requires Appended(p, Under(job, head), middle, after, below)
    ensures AppendedUnder(p, job, heads + {head}, before, after, sites + Behind(head, below))
  {
    AddHead(p, job, heads, head, middle[|before|..], sites, after[|middle|..], below);
    assert after[|before|..] == middle[|before|..] + after[|middle|..];
  }

  method Compare(p: Printer, declared: map<string, Value>, live: map<string, Value>, prefix: string, out: Found)
    returns (ghost sites: seq<Site>)
    modifies out
    ensures Appended(p, Fields(Obj(declared), live, prefix), old(out.fields), out.fields, sites)
    ensures forall key | Comparable(declared, live, prefix, key) ::
              ToldByValue(declared, live, prefix, key, out.fields[|old(out.fields)|..], sites)
    decreases Obj(declared), 1
  {
    ghost var before := out.fields;
    ghost var job := Fields(Obj(declared), live, prefix);
    ghost var heads: set<Step> := {};
    sites := [];
    var keys := declared.Keys;
    while keys != {}
      invariant keys <= declared.Keys
      invariant forall key :: Key(key) in heads <==> key in declared && key !in keys
      invariant AppendedUnder(p, job, heads, before, out.fields, sites)
      decreases keys
    {
      var key :| key in keys;
      ghost var middle := out.fields;
      ghost var below := CompareKey(p, declared, live, prefix, key, out);
      AppendHead(p, job, heads, Key(key), before, middle, out.fields, sites, below);
      heads := heads + {Key(key)};
      sites := sites + Behind(Key(key), below);
      keys := keys - {key};
    }
    AllHeads(p, job, heads, out.fields[|before|..], sites);
    forall key | Comparable(declared, live, prefix, key)
      ensures ToldByValue(declared, live, prefix, key, out.fields[|before|..], sites)
    {
      ReportTellsValues(p, declared, live, prefix, key, out.fields[|before|..], sites);
    }
  }

  /** The body of the loop over the declared keys. */
  method CompareKey(p: Printer, declared: map<string, Value>, live: map<string, Value>, prefix: string, key: string, out: Found)
    returns (ghost sites: seq<Site>)
    requires key in declared
    modifies out
    ensures Appended(p, ForKey(Obj(declared), live, prefix, key), old(out.fields), out.fields, sites)
    decreases Obj(declared), 0
  {
    ghost var before := out.fields;
    ghost var job := ForKey(Obj(declared), live, prefix, key);
    var path := Join(prefix, key);
    var want := declared[key];
    sites := LeafSites(p, job);
    if path in IGNORED {
      LeafAppended(p, job, before, out.fields);
      return;
    }
    if key !in live {
      out.fields := out.fields + [FieldDrift(path, Text(p, want), NOT_SET)];
      LeafAppended(p, job, before, out.fields);
      return;
    }
    var got := live[key];
    if want.Obj? && got.Obj? {
      sites := Compare(p, want.fields, got.fields, path, out);
      return;
    }
    if want.List? && got.List? {
      sites := CompareLists(p, want.items, got.items, path, out);
      return;
    }
    if Text(p, want) != Text(p, got) {
      out.fields := out.fields + [FieldDrift(path, Text(p, want), Text(p, got))];
    }
    LeafAppended(p, job, before, out.fields);
  }

  method CompareLists(p: Printer, declared: seq<Value>, live: seq<Value>, path: string, out: Found)
    returns (ghost sites: seq<Site>)
    modifies out
    ensures Appended(p, Lists(List(declared), live, path), old(out.fields), out.fields, sites)
    decreases List(declared), 1
  {
    ghost var before := out.fields;
    ghost var job := Lists(List(declared), live, path);
    if Named(declared) {
      sites := CompareByName(p, declared, live, path, out);
      return;
    }
    if |declared| != |live| {
      out.fields := out.fields + [FieldDrift(path, Entries(|declared|), Entries(|live|))];
      sites := LeafSites(p, job);
      LeafAppended(p, job, before, out.fields);
      return;
    }
    sites := [];
    for at := 0 to |declared|
      invariant AppendedUnder(p, job, ItemsBelow(at), before, out.fields, sites)
    {
      ghost var middle := out.fields;
      ghost var below := CompareEntry(p, declared[at], live[at], Bracket(path, Decimal(at)), out);
      AppendItem(p, job, at, before, middle, out.fields, sites, below);
      sites := sites + Behind(Item(at), below);
    }
    AllItems(p, job, before, out.fields, sites);
  }

  method CompareEntry(p: Printer, declared: Value, live: Value, path: string, out: Found)
    returns (ghost sites: seq<Site>)
    modifies out
    ensures Appended(p, ForEntry(declared, live, path), old(out.fields), out.fields, sites)
    decreases declared, 2
  {
    if declared.Obj? && live.Obj? {
      sites := Compare(p, declared.fields, live.fields, path, out);
      return;
    }
    ghost var before := out.fields;
    ghost var job := ForEntry(declared, live, path);
    sites := LeafSites(p, job);
    if Text(p, declared) != Text(p, live) {
      out.fields := out.fields + [FieldDrift(path, Text(p, declared), Text(p, live))];
    }
    LeafAppended(p, job, before, out.fields);
  }

  /** The live entries under their names, a later one in place of an earlier one. */
  method ByName(live: seq<Value>) returns (found: map<string, Value>)
    ensures forall name :: LastNamed(live, name) == if name in found then Some(found[name]) else None
  {
    found := map[];
    for i := 0 to |live|
      invariant forall name :: LastNamed(live[..i], name) == if name in found then Some(found[name]) else None
    {
      assert live[..i + 1][..i] == live[..i];
      if live[i].Obj? {
        found := found[NameOf(live[i].fields) := live[i]];
      }
    }
    assert live[..|live|] == live;
  }

  method CompareByName(p: Printer, declared: seq<Value>, live: seq<Value>, path: string, out: Found)
    returns (ghost sites: seq<Site>)
    requires Named(declared)
    modifies out
    ensures Appended(p, Lists(List(declared), live, path), old(out.fields), out.fields, sites)
    decreases List(declared), 0
  {
    ghost var before := out.fields;
    ghost var job := Lists(List(declared), live, path);
    sites := [];
    var found := ByName(live);
    for at := 0 to |declared|
      invariant AppendedUnder(p, job, ItemsBelow(at), before, out.fields, sites)
    {
      ghost var middle := out.fields;
      ghost var below: seq<Site>;
      var entry := declared[at];
      var name := NameOf(entry.fields);
      if name in found {
        below := CompareEntry(p, entry, found[name], Bracket(path, name), out);
      } else {
        out.fields := out.fields + [FieldDrift(Bracket(path, name), Text(p, entry), NOT_SET)];
        below := LeafSites(p, Absent(entry, Bracket(path, name)));
        LeafAppended(p, Absent(entry, Bracket(path, name)), middle, out.fields);
      }
      AppendItem(p, job, at, before, middle, out.fields, sites, below);
      sites := sites + Behind(Item(at), below);
    }
    AllItems(p, job, before, out.fields, sites);
  }

  // ---------------------------------------------------------------------------
  // What is shown
  // ---------------------------------------------------------------------------

  const NO_DECLARATION :=
    "no last-applied-configuration on this object, so there is nothing declared to compare; ServerSideApply=true never writes one"

  function Declaration(parse: string -> Option<map<string, Value>>, live: Value): Option<map<string, Value>> {
    var annotations := Annotations(live);
    if annotations.None? || LAST_APPLIED !in annotations.value || annotations.value[LAST_APPLIED] == "" then None
    else parse(annotations.value[LAST_APPLIED])
  }

  predicate InOrder(fields: seq<FieldDrift>) {
    forall i, j | 0 <= i < j < |fields| :: !Below(fields[j].path, fields[i].path)
  }

  predicate Permutes(perm: seq<nat>, n: nat) {
    |perm| == n &&
    (forall i | 0 <= i < n :: perm[i] < n) &&
    (forall i, j | 0 <= i < j < n :: perm[i] != perm[j]) &&
    (forall k: nat | k < n :: k in perm)
  }

  function Pick<T>(items: seq<T>, perm: seq<nat>): (picked: seq<T>)
    requires forall i | 0 <= i < |perm| :: perm[i] < |items|
    ensures |picked| == |perm| && forall i | 0 <= i < |perm| :: picked[i] == items[perm[i]]
  {
    seq(|perm|, i requires 0 <= i < |perm| => items[perm[i]])
  }

  lemma Rearranged(p: Printer, job: Job, drifts: seq<FieldDrift>, sites: seq<Site>, perm: seq<nat>)
    requires Reports(p, job, drifts, sites) && Permutes(perm, |drifts|)
    ensures Reports(p, job, Pick(drifts, perm), Pick(sites, perm))
  {
    forall site | DriftAt(p, job, site).Some? ensures site in Pick(sites, perm) {
      var k :| 0 <= k < |sites| && sites[k] == site;
      assert k in perm;
      var i :| 0 <= i < |perm| && perm[i] == k;
      assert Pick(sites, perm)[i] == site;
    }
  }

  /** Where a drift goes among sorted ones: behind all it does not come before. */
  method Place(sorted: seq<FieldDrift>, one: FieldDrift) returns (at: nat)
    requires InOrder(sorted)
    ensures at <= |sorted|
    ensures forall i | 0 <= i < at :: !Below(one.path, sorted[i].path)
    ensures forall i | at <= i < |sorted| :: !Below(sorted[i].path, one.path)
  {
    at := |sorted|;
    while at > 0 && Below(one.path, sorted[at - 1].path)
      invariant at <= |sorted|
      invariant forall i | at <= i < |sorted| :: Below(one.path, sorted[i].path)
    {
      at := at - 1;
    }
    forall i | 0 <= i < at ensures !Below(one.path, sorted[i].path) {
      if Below(one.path, sorted[i].path) && i < at - 1 {
        BelowTotal(sorted[i].path, sorted[at - 1].path);
        if Below(sorted[i].path, sorted[at - 1].path) {
          BelowTransitive(one.path, sorted[i].path, sorted[at - 1].path);
        }
      }
    }
    forall i | at <= i < |sorted| ensures !Below(sorted[i].path, one.path) {
      BelowIrreflexive(one.path, sorted[i].path);
    }
  }

  lemma Inserted(perm: seq<nat>, n: nat, at: nat)
    requires Permutes(perm, n) && at <= n
    ensures Permutes(perm[..at] + [n] + perm[at..], n + 1)
  {
    var wider := perm[..at] + [n] + perm[at..];
    forall k: nat | k < n + 1 ensures k in wider {
      if k < n {
        assert k in perm;
        var i :| 0 <= i < n && perm[i] == k;
        assert wider[if i < at then i else i + 1] == k;
      } else {
        assert wider[at] == n;
      }
    }
    forall i, j | 0 <= i < j < n + 1 ensures wider[i] != wider[j] {
      assert i != at ==> wider[i] == perm[if i < at then i else i - 1];
      assert j != at ==> wider[j] == perm[if j < at then j else j - 1];
    }
  }

  lemma StaysInOrder(sorted: seq<FieldDrift>, one: FieldDrift, at: nat)
    requires InOrder(sorted) && at <= |sorted|
    requires forall i | 0 <= i < at :: !Below(one.path, sorted[i].path)
    requires forall i | at <= i < |sorted| :: !Below(sorted[i].path, one.path)
    ensures InOrder(sorted[..at] + [one] + sorted[at..])
  {
    var longer := sorted[..at] + [one] + sorted[at..];
    forall i, j | 0 <= i < j < |longer| ensures !Below(longer[j].path, longer[i].path) {
      assert i < at ==> longer[i] == sorted[i];
      assert i > at ==> longer[i] == sorted[i - 1];
      assert j < at ==> longer[j] == sorted[j];
      assert j > at ==> longer[j] == sorted[j - 1];
    }
  }

  /** The standard library's sort: some arrangement in order. */
  method SortByPath(fields: seq<FieldDrift>) returns (sorted: seq<FieldDrift>, ghost perm: seq<nat>)
    ensures Permutes(perm, |fields|) && sorted == Pick(fields, perm)
    ensures InOrder(sorted)
  {
    sorted, perm := [], [];
    for n := 0 to |fields|
      invariant Permutes(perm, n) && sorted == Pick(fields[..n], perm)
      invariant InOrder(sorted)
    {
      var at := Place(sorted, fields[n]);
      Inserted(perm, n, at);
      StaysInOrder(sorted, fields[n], at);
      sorted, perm := sorted[..at] + [fields[n]] + sorted[at..], perm[..at] + [n] + perm[at..];
    }
    assert fields[..|fields|] == fields;
  }

  lemma EmptyIffCovered(p: Printer, job: Job, drifts: seq<FieldDrift>, sites: seq<Site>)
    requires Sound(job) && Reports(p, job, drifts, sites)
    ensures drifts == [] <==> CoveredJob(p, job)
  {
    CoveredIffNoDrift(p, job);
    if sites != [] {
      assert DriftAt(p, job, sites[0]).Some?;
    }
  }

  /** The first twenty, and how many more there are. */
  predicate Shows(all: seq<FieldDrift>, fields: seq<FieldDrift>, note: string) {
    if |all| <= MAX_DRIFT_FIELDS then fields == all && note == ""
    else fields == all[..MAX_DRIFT_FIELDS] && note == Decimal(|all| - MAX_DRIFT_FIELDS) + " more fields differ"
  }

  /** Every drift there is, by path; none exactly when live covers what was declared. */
  method AllDrift(p: Printer, declared: map<string, Value>, live: map<string, Value>)
    returns (all: seq<FieldDrift>, ghost sites: seq<Site>)
    ensures Reports(p, Fields(Obj(declared), live, ""), all, sites) && InOrder(all)
    ensures all == [] <==> CoversFields(p, Obj(declared), live, "")
    ensures forall key | Comparable(declared, live, "", key) :: ToldByValue(declared, live, "", key, all, sites)
  {
    var found := new Found();
    sites := Compare(p, declared, live, "", found);
    ghost var job := Fields(Obj(declared), live, "");
    var sorted, perm := SortByPath(found.fields);
    Rearranged(p, job, found.fields, sites, perm);
    all, sites := sorted, Pick(sites, perm);
    EmptyIffCovered(p, job, all, sites);
    forall key | Comparable(declared, live, "", key) ensures ToldByValue(declared, live, "", key, all, sites) {
      ReportTellsValues(p, declared, live, "", key, all, sites);
    }
  }

  method Drift(p: Printer, parse: string -> Option<map<string, Value>>, live: Value)
    returns (fields: seq<FieldDrift>, note: string, ghost all: seq<FieldDrift>, ghost sites: seq<Site>)
    requires live.Obj?
    ensures Declaration(parse, live).None? ==> fields == [] && note == NO_DECLARATION
    ensures Declaration(parse, live).Some? ==>
              (fields == [] <==> CoversFields(p, Obj(Declaration(parse, live).value), live.fields, ""))
    ensures Declaration(parse, live).Some? ==>
              Reports(p, Fields(Obj(Declaration(parse, live).value), live.fields, ""), all, sites) &&
              InOrder(all) && Shows(all, fields, note)
    ensures |fields| <= MAX_DRIFT_FIELDS && InOrder(fields)
  {
    var declared := Declaration(parse, live);
    if declared.None? {
      return [], NO_DECLARATION, [], [];
    }
    var found, places := AllDrift(p, declared.value, live.fields);
    if |found| <= MAX_DRIFT_FIELDS {
      return found, "", found, places;
    }
    return found[..MAX_DRIFT_FIELDS], Decimal(|found| - MAX_DRIFT_FIELDS) + " more fields differ", found, places;
  }
}
