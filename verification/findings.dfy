/** Findings of one check a page at a time (internal/checks/checks.go). */
module Findings {
  // Each page starts behind the cursor the page before it gave.

  import opened Order
  import Base64

  datatype Severity = High | Medium | Low

  datatype Subject = Subject(originRank: string, namespace_: string, kind: string, name: string)

  datatype Found = Found(severity: Severity, subject: Subject, container: string, detail: string)

  /** A finding as a page shows it: `ref` is where its object stands in the list of objects. */
  datatype CheckFinding = CheckFinding(ref: nat, container: string, detail: string, severity: Severity)

  function RankOf(severity: Severity): string {
    match severity
    case High => "0"
    case Medium => "1"
    case Low => "2"
  }

  function SubjectKey(subject: Subject): string {
    subject.originRank + "\0" + subject.namespace_ + "/" + subject.kind + "/" + subject.name
  }

  function FindingKey(item: Found): string {
    RankOf(item.severity) + "\0" + SubjectKey(item.subject) + "\0" + item.container
  }

  function ObjectOf(subject: Subject): string {
    subject.namespace_ + "/" + subject.kind + "/" + subject.name
  }

  /** The parts of a finding's key, as Kubernetes allows them. */
  predicate Named(item: Found) {
    var subject := item.subject;
    '\0' !in subject.originRank && '\0' !in ObjectOf(subject) && '/' !in subject.namespace_ && '/' !in subject.kind
  }

  lemma KeyIs(item: Found)
    ensures FindingKey(item) ==
            RankOf(item.severity) + ['\0'] + (item.subject.originRank + ['\0'] + (ObjectOf(item.subject) + ['\0'] + item.container))
  {
    assert SubjectKey(item.subject) == item.subject.originRank + ['\0'] + ObjectOf(item.subject);
  }

  lemma ObjectsTell(a: Subject, b: Subject)
    requires '/' !in a.namespace_ && '/' !in b.namespace_ && '/' !in a.kind && '/' !in b.kind && ObjectOf(a) == ObjectOf(b)
    ensures a.namespace_ == b.namespace_ && a.kind == b.kind && a.name == b.name
  {
    var restA, restB := a.kind + ['/'] + a.name, b.kind + ['/'] + b.name;
    assert ObjectOf(a) == a.namespace_ + ['/'] + restA && ObjectOf(b) == b.namespace_ + ['/'] + restB;
    SplitsAtTheFirst(a.namespace_, restA, b.namespace_, restB, '/');
    SplitsAtTheFirst(a.kind, a.name, b.kind, b.name, '/');
  }

  /** Two findings share a key exactly when they agree in severity, object and container. */
  lemma SameKeyIff(a: Found, b: Found)
    requires Named(a) && Named(b)
    ensures FindingKey(a) == FindingKey(b) <==> a.severity == b.severity && a.subject == b.subject && a.container == b.container
  {
    if FindingKey(a) == FindingKey(b) {
      KeyIs(a);
      KeyIs(b);
      var lastA, lastB := ObjectOf(a.subject) + ['\0'] + a.container, ObjectOf(b.subject) + ['\0'] + b.container;
      var restA, restB := a.subject.originRank + ['\0'] + lastA, b.subject.originRank + ['\0'] + lastB;
      SplitsAtTheFirst(RankOf(a.severity), restA, RankOf(b.severity), restB, '\0');
      SplitsAtTheFirst(a.subject.originRank, lastA, b.subject.originRank, lastB, '\0');
      SplitsAtTheFirst(ObjectOf(a.subject), a.container, ObjectOf(b.subject), b.container, '\0');
      ObjectsTell(a.subject, b.subject);
    }
  }

  function Weight(severity: Severity): nat {
    match severity
    case High => 3
    case Medium => 2
    case Low => 1
  }

  /** What is more severe comes first. */
  lemma MoreSevereFirst(a: Found, b: Found)
    requires Weight(a.severity) > Weight(b.severity)
    ensures Below(FindingKey(a), FindingKey(b)) && FindingKey(a) != FindingKey(b)
  {
    assert FindingKey(a)[0] == RankOf(a.severity)[0] && FindingKey(b)[0] == RankOf(b.severity)[0];
  }

  predicate InBytes(all: seq<Found>) {
    forall i | 0 <= i < |all| :: Base64.IsBytes(FindingKey(all[i]))
  }

  /** The order the findings are ranked in. */
  predicate Ranked(all: seq<Found>) {
    forall i, j | 0 <= i < j < |all| :: !Below(FindingKey(all[j]), FindingKey(all[i]))
  }

  function EncodeCursor(key: string): string
    requires Base64.IsBytes(key)
  {
    if key == "" then "" else Base64.Encode(key)
  }

  /** A cursor that cannot be read starts over. */
  function DecodeCursor(cursor: string): string {
    if cursor == "" then ""
    else match Base64.Decode(cursor)
      case None => ""
      case Some(key) => key
  }

  lemma CursorReadsBack(key: string)
    requires Base64.IsBytes(key)
    ensures DecodeCursor(EncodeCursor(key)) == key
    ensures EncodeCursor(key) == "" <==> key == ""
  {
    Base64.DecodeEncode(key);
  }

  /** The findings behind a key. */
  function After(all: seq<Found>, key: string): seq<Found> {
    if all == [] then []
    else (if Below(key, FindingKey(all[0])) then [all[0]] else []) + After(all[1..], key)
  }

  function LastKey(items: seq<Found>): string {
    if items == [] then "" else FindingKey(items[|items| - 1])
  }

  function Next(kept: seq<Found>, limit: nat): string
    requires InBytes(kept) && limit > 0
  {
    if |kept| <= limit then "" else EncodeCursor(FindingKey(kept[limit - 1]))
  }

  function Shown(kept: seq<Found>, limit: nat): seq<Found> {
    if |kept| <= limit then kept else kept[..limit]
  }

  // ---------------------------------------------------------------------------
  // The objects findings point at
  // ---------------------------------------------------------------------------

  function ObjectKey(subject: Subject): string {
    subject.kind + "/" + subject.namespace_ + "/" + subject.name
  }

  /** Two findings point at one object exactly when kind, namespace and name agree. */
  lemma SameObjectIff(a: Subject, b: Subject)
    requires '/' !in a.kind && '/' !in b.kind && '/' !in a.namespace_ && '/' !in b.namespace_
    ensures ObjectKey(a) == ObjectKey(b) <==> a.kind == b.kind && a.namespace_ == b.namespace_ && a.name == b.name
  {
    if ObjectKey(a) == ObjectKey(b) {
      var restA, restB := a.namespace_ + ['/'] + a.name, b.namespace_ + ['/'] + b.name;
      assert ObjectKey(a) == a.kind + ['/'] + restA && ObjectKey(b) == b.kind + ['/'] + restB;
      SplitsAtTheFirst(a.kind, restA, b.kind, restB, '/');
      SplitsAtTheFirst(a.namespace_, a.name, b.namespace_, b.name, '/');
    }
  }

  class Objects {
    var index: map<string, nat>
    var list: seq<Subject>

    /** Every object stands once in the list, and the index says where. */
    predicate Valid()
      reads this
    {
      (forall key | key in index :: index[key] < |list| && ObjectKey(list[index[key]]) == key) &&
      (forall i | 0 <= i < |list| :: ObjectKey(list[i]) in index && index[ObjectKey(list[i])] == i)
    }

    constructor ()
      ensures Valid() && list == []
    {
      index, list := map[], [];
    }

    method Ref(subject: Subject) returns (at: nat)
      requires Valid()
      modifies this
      ensures Valid() && at < |list| && ObjectKey(list[at]) == ObjectKey(subject)
      ensures list == if ObjectKey(subject) in old(index) then old(list) else old(list) + [subject]
    {
      var key := ObjectKey(subject);
      if key in index {
        return index[key];
      }
      at := |list|;
      index := index[key := at];
      list := list + [subject];
    }
  }

  /** A page shows this finding, pointing at its object. */
  predicate Shows(list: seq<Subject>, shown: CheckFinding, item: Found) {
    shown.ref < |list| && ObjectKey(list[shown.ref]) == ObjectKey(item.subject) &&
    shown.container == item.container && shown.detail == item.detail && shown.severity == item.severity
  }

  predicate ShowsEach(list: seq<Subject>, out: seq<CheckFinding>, items: seq<Found>) {
    |out| == |items| && forall i | 0 <= i < |out| :: Shows(list, out[i], items[i])
  }

  method Page(all: seq<Found>, objs: Objects, after: string, limit: nat) returns (out: seq<CheckFinding>, next: string)
    requires objs.Valid() && limit > 0 && InBytes(all)
    modifies objs
    ensures objs.Valid() && old(objs.list) <= objs.list
    ensures InBytes(After(all, after))
    ensures ShowsEach(objs.list, out, Shown(After(all, after), limit))
    ensures next == Next(After(all, after), limit)
  {
    out := [];
    var last := "";
    ghost var kept: seq<Found> := [];
    AfterInBytes(all, after);
    assert all[0..] == all;
    for i := 0 to |all|
      invariant objs.Valid() && old(objs.list) <= objs.list
      invariant Split(all, after, kept, i) && |kept| <= limit
      invariant ShowsEach(objs.list, out, kept)
      invariant Base64.IsBytes(last) && last == LastKey(kept)
    {
      var item := all[i];
      var key := FindingKey(item);
      AfterStep(all, after, kept, i);
      if !Below(after, key) {
        continue;
      }
      if |out| == limit {
        PageIsFull(After(all, after), kept, item, limit);
        return out, EncodeCursor(last);
      }
      var one := Show(item, objs, out, kept);
      out := out + [one];
      kept := kept + [item];
      last := key;
    }
    assert all[|all|..] == [] && After(all, after) == kept;
    return out, "";
  }

  /** One more finding on a page. */
  method Show(item: Found, objs: Objects, ghost out: seq<CheckFinding>, ghost items: seq<Found>) returns (one: CheckFinding)
    requires objs.Valid() && ShowsEach(objs.list, out, items)
    modifies objs
    ensures objs.Valid() && old(objs.list) <= objs.list
    ensures ShowsEach(objs.list, out + [one], items + [item])
  {
    ghost var list := objs.list;
    var ref := objs.Ref(item.subject);
    one := CheckFinding(ref, item.container, item.detail, item.severity);
    StillShows(list, objs.list, out, items, one, item);
  }

  /** These are the findings behind a key among the first few. */
  predicate Split(all: seq<Found>, key: string, kept: seq<Found>, i: nat)
    requires i <= |all|
  {
    After(all, key) == kept + After(all[i..], key)
  }

  lemma AfterStep(all: seq<Found>, key: string, kept: seq<Found>, i: nat)
    requires i < |all| && Split(all, key, kept, i)
    ensures Split(all, key, if Below(key, FindingKey(all[i])) then kept + [all[i]] else kept, i + 1)
    ensures Below(key, FindingKey(all[i])) ==> kept + [all[i]] <= After(all, key)
  {
    assert all[i..][1..] == all[i + 1..];
    var rest := After(all[i + 1..], key);
    if Below(key, FindingKey(all[i])) {
      assert After(all[i..], key) == [all[i]] + rest;
      assert kept + ([all[i]] + rest) == kept + [all[i]] + rest;
    } else {
      assert After(all[i..], key) == rest;
    }
  }

  lemma PageIsFull(items: seq<Found>, kept: seq<Found>, item: Found, limit: nat)
    requires InBytes(items) && kept + [item] <= items && |kept| == limit > 0
    ensures Shown(items, limit) == kept && Base64.IsBytes(LastKey(kept)) && Next(items, limit) == EncodeCursor(LastKey(kept))
  {
    assert items[..limit] == (kept + [item])[..limit] == kept;
    assert items[limit - 1] == kept[limit - 1];
  }

  lemma StillShows(list: seq<Subject>, longer: seq<Subject>, out: seq<CheckFinding>, items: seq<Found>, one: CheckFinding, item: Found)
    requires ShowsEach(list, out, items) && list <= longer && Shows(longer, one, item)
    ensures ShowsEach(longer, out + [one], items + [item])
  {}

  lemma {:induction false} AfterInBytes(all: seq<Found>, key: string)
    requires InBytes(all)
    ensures InBytes(After(all, key))
  {
    if all != [] {
      AfterInBytes(all[1..], key);
    }
  }

  // ---------------------------------------------------------------------------
  // Following the cursors
  // ---------------------------------------------------------------------------

  /** The pages from a cursor on, each fetched with the cursor the one before it gave. */
  function Pages(all: seq<Found>, cursor: string, limit: nat): seq<seq<Found>>
    requires InBytes(all) && limit > 0
    decreases |After(all, DecodeCursor(cursor))|
  {
    AfterInBytes(all, DecodeCursor(cursor));
    var kept := After(all, DecodeCursor(cursor));
    var next := Next(kept, limit);
    if next == "" then [Shown(kept, limit)]
    else NextIsBehind(all, cursor, limit); [Shown(kept, limit)] + Pages(all, next, limit)
  }

  lemma {:induction false} AfterTwice(all: seq<Found>, key: string, later: string)
    requires later == key || Below(key, later)
    ensures After(After(all, key), later) == After(all, later)
  {
    if all != [] {
      AfterTwice(all[1..], key, later);
      var here := FindingKey(all[0]);
      if Below(later, here) && later != key {
        BelowTransitive(key, later, here);
      }
      if Below(key, here) {
        assert After(all, key)[0] == all[0] && After(all, key)[1..] == After(all[1..], key);
      } else {
        assert After(all, key) == After(all[1..], key);
      }
    }
  }

  lemma {:induction false} AfterIsBehind(all: seq<Found>, key: string)
    ensures |After(all, key)| <= |all|
    ensures forall i | 0 <= i < |After(all, key)| :: Below(key, FindingKey(After(all, key)[i]))
  {
    if all != [] {
      AfterIsBehind(all[1..], key);
    }
  }

  lemma {:induction false} AfterOneOf(all: seq<Found>, i: nat)
    requires i < |all|
    ensures |After(all, FindingKey(all[i]))| < |all|
  {
    var key := FindingKey(all[i]);
    if Below(key, key) {
      BelowIrreflexive(key, key);
    }
    AfterIsBehind(all[1..], key);
    if i > 0 {
      AfterOneOf(all[1..], i - 1);
    }
  }

  lemma NextIsBehind(all: seq<Found>, cursor: string, limit: nat)
    requires InBytes(all) && limit > 0
    requires InBytes(After(all, DecodeCursor(cursor))) && Next(After(all, DecodeCursor(cursor)), limit) != ""
    ensures var kept := After(all, DecodeCursor(cursor));
            |kept| > limit &&
            After(all, DecodeCursor(Next(kept, limit))) == After(kept, FindingKey(kept[limit - 1])) &&
            |After(kept, FindingKey(kept[limit - 1]))| < |kept|
  {
    var key := DecodeCursor(cursor);
    var kept := After(all, key);
    var last := FindingKey(kept[limit - 1]);
    CursorReadsBack(last);
    AfterIsBehind(all, key);
    AfterTwice(all, key, last);
    AfterOneOf(kept, limit - 1);
  }

  function Concat(pages: seq<seq<Found>>): seq<Found> {
    if pages == [] then [] else pages[0] + Concat(pages[1..])
  }

  lemma KeyNotEmpty(item: Found)
    ensures FindingKey(item) != ""
  {
    assert FindingKey(item)[0] in {'0', '1', '2'};
  }

  lemma {:induction false} AfterNothing(all: seq<Found>)
    ensures After(all, "") == all
  {
    if all != [] {
      KeyNotEmpty(all[0]);
      AfterNothing(all[1..]);
    }
  }

  /** No two findings on either side of a page boundary have the same key. */
  predicate BoundariesApart(all: seq<Found>, limit: nat)
    requires limit > 0
  {
    |all| <= limit || (KeysApart(all, limit) && BoundariesApart(all[limit..], limit))
  }

  predicate KeysApart(all: seq<Found>, i: nat)
    requires 0 < i < |all|
  {
    FindingKey(all[i - 1]) != FindingKey(all[i])
  }

  lemma {:induction false} AfterSuffix(all: seq<Found>, i: nat)
    requires Ranked(all) && i < |all|
    ensures After(all, FindingKey(all[i])) == After(all[i + 1..], FindingKey(all[i]))
  {
    var key := FindingKey(all[i]);
    if i == 0 {
      if Below(key, key) {
        BelowIrreflexive(key, key);
      }
    } else {
      AfterSuffix(all[1..], i - 1);
      assert all[1..][i..] == all[i + 1..];
    }
  }

  lemma {:induction false} AllBehind(all: seq<Found>, key: string)
    requires forall i | 0 <= i < |all| :: Below(key, FindingKey(all[i]))
    ensures After(all, key) == all
  {
    if all != [] {
      AllBehind(all[1..], key);
    }
  }

  /** Behind the last finding of a page come exactly those after it, unless the next has its key. */
  lemma BehindThePage(kept: seq<Found>, limit: nat)
    requires Ranked(kept) && 0 < limit < |kept|
    ensures var rest := After(kept, FindingKey(kept[limit - 1]));
            if KeysApart(kept, limit) then rest == kept[limit..] else |rest| < |kept| - limit
  {
    var last := FindingKey(kept[limit - 1]);
    var rest := kept[limit..];
    AfterSuffix(kept, limit - 1);
    BelowTotal(last, FindingKey(kept[limit]));
    if KeysApart(kept, limit) {
      forall i | 0 <= i < |rest| ensures Below(last, FindingKey(rest[i])) {
        assert rest[i] == kept[limit + i];
        if i > 0 {
          BelowTotal(FindingKey(kept[limit]), FindingKey(rest[i]));
          if FindingKey(kept[limit]) != FindingKey(rest[i]) {
            BelowTransitive(last, FindingKey(kept[limit]), FindingKey(rest[i]));
          }
        }
      }
      AllBehind(rest, last);
    } else {
      assert FindingKey(rest[0]) == last;
      AfterOneOf(rest, 0);
    }
  }

  lemma {:induction false} AfterStaysRanked(all: seq<Found>, key: string)
    requires Ranked(all)
    ensures Ranked(After(all, key))
    ensures forall item :: item in After(all, key) ==> item in all
  {
    if all != [] {
      AfterStaysRanked(all[1..], key);
      var rest := After(all[1..], key);
      forall i | 0 <= i < |rest| ensures !Below(FindingKey(rest[i]), FindingKey(all[0])) {
        assert rest[i] in all[1..];
        var j :| 0 <= j < |all[1..]| && all[1..][j] == rest[i];
        assert all[j + 1] == rest[i];
      }
    }
  }

  /** The pages hold exactly the findings behind the cursor, in order, just when no page boundary
      falls between two findings with the same key. */
  lemma {:induction false} PagesYieldTheRest(all: seq<Found>, cursor: string, limit: nat)
    requires InBytes(all) && Ranked(all) && limit > 0
    ensures var kept := After(all, DecodeCursor(cursor));
            (Concat(Pages(all, cursor, limit)) == kept <==> BoundariesApart(kept, limit)) &&
            |Concat(Pages(all, cursor, limit))| <= |kept|
    decreases |After(all, DecodeCursor(cursor))|
  {
    var kept := After(all, DecodeCursor(cursor));
    AfterInBytes(all, DecodeCursor(cursor));
    AfterStaysRanked(all, DecodeCursor(cursor));
    var pages := Pages(all, cursor, limit);
    CursorSaysWhetherMore(kept, limit);
    if |kept| <= limit {
      assert Concat([kept]) == kept;
    } else {
      NextIsBehind(all, cursor, limit);
      PagesYieldTheRest(all, Next(kept, limit), limit);
      BehindThePage(kept, limit);
      var rest := Concat(Pages(all, Next(kept, limit), limit));
      assert pages[1..] == Pages(all, Next(kept, limit), limit);
      FirstThenRest(kept, limit, Concat(pages), rest);
    }
  }

  lemma FirstThenRest(kept: seq<Found>, limit: nat, whole: seq<Found>, rest: seq<Found>)
    requires limit < |kept| && whole == kept[..limit] + rest
    ensures whole == kept <==> rest == kept[limit..]
    ensures |whole| == limit + |rest|
  {
    assert whole[limit..] == rest;
    assert kept == kept[..limit] + kept[limit..];
  }

  /** Findings whose keys all differ never share one across a boundary. */
  lemma {:induction false} DistinctKeysSuffice(all: seq<Found>, limit: nat)
    requires limit > 0
    requires forall i, j | 0 <= i < j < |all| :: FindingKey(all[i]) != FindingKey(all[j])
    ensures BoundariesApart(all, limit)
  {
    if |all| > limit {
      DistinctKeysSuffice(all[limit..], limit);
    }
  }

  /** Fetching page after page from the start. */
  lemma PagesYieldEverything(all: seq<Found>, limit: nat)
    requires InBytes(all) && Ranked(all) && limit > 0
    ensures Concat(Pages(all, "", limit)) == all <==> BoundariesApart(all, limit)
  {
    PagesYieldTheRest(all, "", limit);
    AfterNothing(all);
  }

  /** Of two findings that differ in their detail only, a page of one shows the first and the next
      page skips the second. */
  lemma SecondOfAKeyIsSkipped(first: Found, detail: string)
    requires Base64.IsBytes(FindingKey(first)) && detail != first.detail
    ensures var all := [first, first.(detail := detail)];
            InBytes(all) && Ranked(all) && Concat(Pages(all, "", 1)) == [first] != all
  {
    var second := first.(detail := detail);
    var all, key := [first, second], FindingKey(first);
    assert FindingKey(second) == key;
    NoneBehindItself(first, second);
    KeyNotEmpty(first);
    AfterNothing(all);
    CursorReadsBack(key);
    var next := EncodeCursor(key);
    assert Pages(all, next, 1) == [[]];
    assert Pages(all, "", 1) == [[first]] + Pages(all, next, 1);
    assert Concat([[]]) == [];
    assert ([[first]] + [[]])[1..] == [[]];
  }

  lemma NoneBehindItself(first: Found, second: Found)
    requires FindingKey(second) == FindingKey(first)
    ensures After([first, second], FindingKey(first)) == [] && Ranked([first, second])
  {
    var key := FindingKey(first);
    if Below(key, key) {
      BelowIrreflexive(key, key);
    }
    assert [first, second][1..] == [second] && [second][1..] == [];
    assert After([second], key) == [];
  }

  /** A page without a cursor is the last: the cursor is empty exactly when nothing is left. */
  lemma CursorSaysWhetherMore(kept: seq<Found>, limit: nat)
    requires InBytes(kept) && limit > 0
    ensures Next(kept, limit) == "" <==> Shown(kept, limit) == kept
  {
    if |kept| > limit {
      KeyNotEmpty(kept[limit - 1]);
      CursorReadsBack(FindingKey(kept[limit - 1]));
    }
  }
}
