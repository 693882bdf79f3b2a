/** How far two renderings of an object differ, and the verdicts over all objects of a kind
    (internal/compare/kinds.go). Lines are compared as multisets, by a loop over counters; the
    objects of either side are paired by name, or by namespace and name, and every key on either
    side gets one verdict. How an object is written out is a function handed in, since the
    encoder is not part of this model. */
module Kinds {
  import opened Options
  import opened Objects
  import opened Order
  import Compare

  // ---------------------------------------------------------------------------
  // Changed lines
  // ---------------------------------------------------------------------------

  /** The lines of a text; there is always one more than there are line breaks. */
  function Lines(text: string): (lines: seq<string>)
    ensures lines != []
  {
    if text == "" then [""]
    else
      var rest := Lines(text[1..]);
      if text[0] == '\n' then [""] + rest else [[text[0]] + rest[0]] + rest[1..]
  }

  function Joined(lines: seq<string>): string
    requires lines != []
  {
    if |lines| == 1 then lines[0] else lines[0] + ("\n" + Joined(lines[1..]))
  }

  lemma JoinedFirst(first: char, lines: seq<string>)
    requires lines != []
    ensures Joined([[first] + lines[0]] + lines[1..]) == [first] + Joined(lines)
  {
    var longer := [[first] + lines[0]] + lines[1..];
    assert longer[1..] == lines[1..];
    if |lines| > 1 {
      Reassociated([first], lines[0], "\n" + Joined(lines[1..]));
    }
  }

  lemma Reassociated(a: string, b: string, c: string)
    ensures (a + b) + c == a + (b + c)
  {}

  /** Nothing is lost in the lines: equal lines mean equal texts. */
  lemma {:induction false} LinesJoin(text: string)
    ensures Joined(Lines(text)) == text
  {
    if text != "" {
      LinesJoin(text[1..]);
      var rest := Lines(text[1..]);
      if text[0] == '\n' {
        assert ([""] + rest)[1..] == rest;
      } else {
        JoinedFirst(text[0], rest);
      }
      assert text == [text[0]] + text[1..];
    }
  }

  /** The lines only one side has, counted as often as it has them more. */
  function Distance(left: multiset<string>, right: multiset<string>): nat {
    |left - right| + |right - left|
  }

  lemma DistanceIsSymmetric(left: multiset<string>, right: multiset<string>)
    ensures Distance(left, right) == Distance(right, left)
  {}

  lemma DistanceZeroIff(left: multiset<string>, right: multiset<string>)
    ensures Distance(left, right) == 0 <==> left == right
  {
    if Distance(left, right) == 0 {
      forall line ensures left[line] == right[line] {
        NothingIn(left - right, line);
        NothingIn(right - left, line);
      }
    }
  }

  lemma {:induction false} OneLine(line: string)
    requires '\n' !in line
    ensures Lines(line) == [line]
  {
    if line != "" {
      OneLine(line[1..]);
      assert [line[0]] + line[1..] == line;
    }
  }

  lemma {:induction false} TwoLines(first: string, second: string)
    requires '\n' !in first && '\n' !in second
    ensures Lines(first + "\n" + second) == [first, second]
  {
    var text := first + "\n" + second;
    if first == "" {
      OneLine(second);
      assert text[1..] == second;
    } else {
      TwoLines(first[1..], second);
      assert text[1..] == first[1..] + "\n" + second;
      assert [text[0]] + first[1..] == first;
    }
  }

  /** Any two lines the other way round make a different text with no changed lines, as "a" and "b". */
  lemma SwappedLinesCountNothing(first: string, second: string)
    requires '\n' !in first && '\n' !in second && first != second
    ensures var here, there := first + "\n" + second, second + "\n" + first;
            here != there && Distance(multiset(Lines(here)), multiset(Lines(there))) == 0
  {
    TwoLines(first, second);
    TwoLines(second, first);
    assert [first, second][0] != [second, first][0];
    assert multiset([first, second]) == multiset([second, first]);
  }

  lemma NothingIn(lines: multiset<string>, line: string)
    requires |lines| == 0
    ensures lines[line] == 0
  {
    assert lines == multiset{};
  }

  /** One more line on the left that the right still has. */
  lemma Paired(left: multiset<string>, right: multiset<string>, line: string)
    requires left[line] < right[line]
    ensures (left + multiset{line}) - right == left - right
    ensures right - (left + multiset{line}) == (right - left) - multiset{line}
  {}

  /** One more line on the left that the right has no more of. */
  lemma Unpaired(left: multiset<string>, right: multiset<string>, line: string)
    requires left[line] >= right[line]
    ensures (left + multiset{line}) - right == (left - right) + multiset{line}
    ensures right - (left + multiset{line}) == right - left
  {}

  method CountLines(lines: seq<string>) returns (count: map<string, nat>)
    ensures Holds(count, multiset(lines))
  {
    count := map[];
    for i := 0 to |lines|
      invariant Holds(count, multiset(lines[..i]))
    {
      assert lines[..i + 1] == lines[..i] + [lines[i]];
      count := count[lines[i] := (if lines[i] in count then count[lines[i]] else 0) + 1];
    }
    assert lines[..|lines|] == lines;
  }

  ghost predicate Holds(count: map<string, nat>, lines: multiset<string>) {
    forall line :: lines[line] == if line in count then count[line] else 0
  }

  /** The body of the loop over the left lines. */
  method Match(count: map<string, nat>, line: string, ghost here: multiset<string>, ghost there: multiset<string>)
    returns (left: map<string, nat>, paired: bool)
    requires Holds(count, there - here)
    ensures Holds(left, there - (here + multiset{line}))
    ensures |(here + multiset{line}) - there| == |here - there| + if paired then 0 else 1
  {
    assert (there - here)[line] == if line in count then count[line] else 0;
    paired := line in count && count[line] > 0;
    if paired {
      Paired(here, there, line);
      return count[line := count[line] - 1], true;
    }
    Unpaired(here, there, line);
    return count, false;
  }

  method ChangedLines(left: string, right: string) returns (changed: nat)
    ensures changed == Distance(multiset(Lines(left)), multiset(Lines(right)))
  {
    var ours, theirs := Lines(left), Lines(right);
    var inRight := CountLines(theirs);
    changed := 0;
    ghost var here, there := multiset{}, multiset(theirs);
    for i := 0 to |ours|
      invariant here == multiset(ours[..i])
      invariant Holds(inRight, there - here)
      invariant changed == |here - there|
    {
      var paired;
      inRight, paired := Match(inRight, ours[i], here, there);
      OneMoreLine(ours, i);
      here := here + multiset{ours[i]};
      if !paired {
        changed := changed + 1;
      }
    }
    assert ours[..|ours|] == ours;
    var more := Total(inRight, there - here);
    changed := changed + more;
  }

  lemma OneMoreLine(lines: seq<string>, i: nat)
    requires i < |lines|
    ensures multiset(lines[..i + 1]) == multiset(lines[..i]) + multiset{lines[i]}
  {
    assert lines[..i + 1] == lines[..i] + [lines[i]];
  }

  /** The sum of all counts. */
  method Total(count: map<string, nat>, ghost lines: multiset<string>) returns (sum: nat)
    requires Holds(count, lines)
    ensures sum == |lines|
  {
    sum := 0;
    var keys := count.Keys;
    ghost var rest := lines;
    while keys != {}
      invariant keys <= count.Keys
      invariant forall line :: rest[line] == if line in keys then count[line] else 0
      invariant sum + |rest| == |lines|
      decreases keys
    {
      var line :| line in keys;
      sum := sum + count[line];
      rest := rest[line := 0];
      keys := keys - {line};
    }
    assert rest == multiset{};
  }

  // ---------------------------------------------------------------------------
  // A verdict on every object
  // ---------------------------------------------------------------------------

  datatype Verdict = Same | Differs | OnlyHere | OnlyThere

  datatype KindDiff = KindDiff(namespace_: string, name: string, verdict: Verdict, lines: nat, hidden: bool)

  /** How an object is written out, where it can be. */
  type Yaml = Value -> Option<string>

  function KeyOf(root: Value, byName: bool): string {
    if byName then MetadataText(root, "name")
    else MetadataText(root, "namespace") + "/" + MetadataText(root, "name")
  }

  function DiffKey(diff: KindDiff, byName: bool): string {
    if byName then diff.name else diff.namespace_ + "/" + diff.name
  }

  /** Two objects are compared with each other exactly when they agree in name and, unless they go
      by name only, in namespace. */
  lemma SameKeyIff(a: Value, b: Value, byName: bool)
    requires '/' !in MetadataText(a, "namespace") && '/' !in MetadataText(b, "namespace")
    ensures KeyOf(a, byName) == KeyOf(b, byName) <==>
            MetadataText(a, "name") == MetadataText(b, "name") &&
            (byName || MetadataText(a, "namespace") == MetadataText(b, "namespace"))
  {
    if !byName && KeyOf(a, false) == KeyOf(b, false) {
      SplitsAtTheFirst(MetadataText(a, "namespace"), MetadataText(a, "name"), MetadataText(b, "namespace"), MetadataText(b, "name"), '/');
    }
  }

  /** The last object under a key. */
  function LastWith(objects: seq<Value>, byName: bool, key: string): Option<Value> {
    if objects == [] then None
    else if KeyOf(objects[|objects| - 1], byName) == key then Some(objects[|objects| - 1])
    else LastWith(objects[..|objects| - 1], byName, key)
  }

  predicate Roots(objects: seq<Value>) {
    forall i | 0 <= i < |objects| :: objects[i].Obj?
  }

  function Text(yaml: Yaml, root: Value, keep: bool): Option<string>
    requires root.Obj?
  {
    yaml(if keep then root else Compare.Stripped(root))
  }

  function DifferentAsWritten(yaml: Yaml, here: Value, there: Value): bool
    requires here.Obj? && there.Obj?
  {
    var left, right := yaml(Compare.Authored(here)), yaml(Compare.Authored(there));
    left.Some? && right.Some? && left != right
  }

  predicate About(diff: KindDiff, root: Value) {
    diff.namespace_ == MetadataText(root, "namespace") && diff.name == MetadataText(root, "name")
  }

  /** The verdict on two objects that go by the same key. */
  predicate JudgesPair(yaml: Yaml, diff: KindDiff, here: Value, there: Value, keep: bool)
    requires here.Obj? && there.Obj?
  {
    var left, right := Text(yaml, here, keep), Text(yaml, there, keep);
    About(diff, here) &&
    (diff.verdict == if left.Some? && right.Some? && left == right then Same else Differs) &&
    (diff.lines == if left.Some? && right.Some? then Distance(multiset(Lines(left.value)), multiset(Lines(right.value))) else 0) &&
    (diff.hidden <==> diff.verdict == Same && !keep && DifferentAsWritten(yaml, here, there))
  }

  predicate Judges(yaml: Yaml, diff: KindDiff, here: Option<Value>, there: Option<Value>, keep: bool)
    requires (here.Some? ==> here.value.Obj?) && (there.Some? ==> there.value.Obj?)
  {
    match (here, there)
    case (Some(ours), Some(theirs)) => JudgesPair(yaml, diff, ours, theirs, keep)
    case (Some(ours), None) => About(diff, ours) && diff.verdict == OnlyHere && diff.lines == 0 && !diff.hidden
    case (None, Some(theirs)) => About(diff, theirs) && diff.verdict == OnlyThere && diff.lines == 0 && !diff.hidden
    case (None, None) => false
  }

  /** Writing out tells two objects apart: both can be written, and alike only if they are the same. */
  predicate TellsApart(yaml: Yaml, a: Value, b: Value) {
    yaml(a).Some? && yaml(b).Some? && (yaml(a) == yaml(b) ==> a == b)
  }

  /** The verdict on a pair, told from how both are written out: whole where everything is kept, and
      stripped otherwise. */
  lemma VerdictIff(yaml: Yaml, diff: KindDiff, here: Value, there: Value, keep: bool)
    requires here.Obj? && there.Obj? && JudgesPair(yaml, diff, here, there, keep)
    ensures var left := yaml(if keep then here else Compare.Stripped(here));
            var right := yaml(if keep then there else Compare.Stripped(there));
            (diff.verdict == Same <==> left.Some? && left == right) &&
            (diff.verdict == Differs <==> left.None? || left != right) &&
            (left.Some? && right.Some? ==>
              (diff.lines == 0 <==> multiset(Lines(left.value)) == multiset(Lines(right.value)))) &&
            (diff.hidden ==> !keep && diff.verdict == Same)
  {
    var left := yaml(if keep then here else Compare.Stripped(here));
    var right := yaml(if keep then there else Compare.Stripped(there));
    if left.Some? && right.Some? {
      DistanceZeroIff(multiset(Lines(left.value)), multiset(Lines(right.value)));
    }
  }

  /** Two renderings of different text can still have the same lines in another order, so only
      the verdict tells. Where writing out tells the two sides apart, stripped and as written, an
      object is the same with nothing hidden exactly when somebody wrote both sides alike. */
  lemma SameMeansWrittenAlike(yaml: Yaml, diff: KindDiff, here: Value, there: Value)
    requires here.Obj? && there.Obj? && JudgesPair(yaml, diff, here, there, false)
    requires TellsApart(yaml, Compare.Stripped(here), Compare.Stripped(there))
    requires TellsApart(yaml, Compare.Authored(here), Compare.Authored(there))
    ensures diff.verdict == Same && !diff.hidden <==> Compare.WrittenAlike(here, there)
    ensures diff.verdict == Same <==> Compare.Stripped(here) == Compare.Stripped(there)
  {
    Compare.SameWhenWrittenAlike(here, there);
  }

  method Compared(yaml: Yaml, here: Value, there: Value, keep: bool) returns (diff: KindDiff)
    requires here.Obj? && there.Obj?
    ensures JudgesPair(yaml, diff, here, there, keep)
  {
    var namespace_, name := MetadataText(here, "namespace"), MetadataText(here, "name");
    var left, right := Text(yaml, here, keep), Text(yaml, there, keep);
    if left.None? || right.None? {
      return KindDiff(namespace_, name, Differs, 0, false);
    }
    if left.value != right.value {
      var changed := ChangedLines(left.value, right.value);
      return KindDiff(namespace_, name, Differs, changed, false);
    }
    return KindDiff(namespace_, name, Same, 0, !keep && DifferentAsWritten(yaml, here, there));
  }

  method Index(objects: seq<Value>, byName: bool) returns (out: map<string, Value>)
    ensures Indexes(out, objects, byName)
  {
    out := map[];
    for i := 0 to |objects|
      invariant forall key :: LastWith(objects[..i], byName, key) == if key in out then Some(out[key]) else None
      invariant forall key | key in out :: KeyOf(out[key], byName) == key && out[key] in objects
    {
      assert objects[..i + 1][..i] == objects[..i];
      out := out[KeyOf(objects[i], byName) := objects[i]];
    }
    assert objects[..|objects|] == objects;
  }

  // ---------------------------------------------------------------------------
  // In order
  // ---------------------------------------------------------------------------

  predicate Before(a: KindDiff, b: KindDiff) {
    if a.namespace_ != b.namespace_ then Below(a.namespace_, b.namespace_) else Below(a.name, b.name)
  }

  predicate InOrder(diffs: seq<KindDiff>) {
    forall i, j | 0 <= i < j < |diffs| :: !Before(diffs[j], diffs[i])
  }

  predicate OnePerKey(diffs: seq<KindDiff>, byName: bool) {
    forall i, j | 0 <= i < j < |diffs| :: DiffKey(diffs[i], byName) != DiffKey(diffs[j], byName)
  }

  lemma BeforeOrder(a: KindDiff, b: KindDiff, c: KindDiff)
    ensures Before(a, b) ==> !Before(b, a)
    ensures !Before(b, a) && !Before(c, b) ==> !Before(c, a)
  {
    BelowOrder(a.namespace_, b.namespace_, c.namespace_);
    BelowOrder(a.name, b.name, c.name);
  }

  lemma BelowOrder(a: string, b: string, c: string)
    ensures Below(a, b) ==> a != b && !Below(b, a)
    ensures !Below(b, a) && !Below(c, b) ==> !Below(c, a)
    ensures !Below(b, a) && !Below(c, b) && a == c ==> a == b
  {
    BelowTotal(a, b);
    BelowTotal(b, c);
    BelowTotal(a, c);
    if Below(a, b) { BelowIrreflexive(a, b); }
    if Below(b, c) { BelowIrreflexive(b, c); }
    if Below(c, a) { BelowIrreflexive(c, a); }
    if Below(a, b) && Below(b, c) { BelowTransitive(a, b, c); }
    if Below(c, a) && Below(a, b) { BelowTransitive(c, a, b); }
    if Below(b, c) && Below(c, a) { BelowTransitive(b, c, a); }
  }

  function Insert(one: KindDiff, sorted: seq<KindDiff>): seq<KindDiff> {
    if sorted == [] || !Before(sorted[0], one) then [one] + sorted else [sorted[0]] + Insert(one, sorted[1..])
  }

  lemma {:induction false} Inserted(one: KindDiff, sorted: seq<KindDiff>, byName: bool)
    requires InOrder(sorted) && OnePerKey(sorted, byName)
    requires forall i | 0 <= i < |sorted| :: DiffKey(sorted[i], byName) != DiffKey(one, byName)
    ensures |Insert(one, sorted)| == |sorted| + 1
    ensures forall diff :: diff in Insert(one, sorted) <==> diff == one || diff in sorted
    ensures InOrder(Insert(one, sorted)) && OnePerKey(Insert(one, sorted), byName)
  {
    if sorted != [] {
      if Before(sorted[0], one) {
        Inserted(one, sorted[1..], byName);
        InsertedLater(sorted[0], one, sorted[1..], byName);
      } else {
        forall i | 0 <= i < |sorted| ensures !Before(sorted[i], one) {
          BeforeOrder(one, sorted[0], sorted[i]);
        }
      }
    }
  }

  lemma InsertedLater(first: KindDiff, one: KindDiff, rest: seq<KindDiff>, byName: bool)
    requires InOrder([first] + rest) && OnePerKey([first] + rest, byName) && Before(first, one)
    requires DiffKey(first, byName) != DiffKey(one, byName)
    requires forall diff :: diff in Insert(one, rest) <==> diff == one || diff in rest
    requires InOrder(Insert(one, rest)) && OnePerKey(Insert(one, rest), byName)
    ensures InOrder([first] + Insert(one, rest)) && OnePerKey([first] + Insert(one, rest), byName)
  {
    var all := Insert(one, rest);
    assert ([first] + rest)[0] == first;
    forall i | 0 <= i < |all| ensures !Before(all[i], first) && DiffKey(all[i], byName) != DiffKey(first, byName) {
      assert all[i] in all;
      if all[i] == one {
        BeforeOrder(first, one, one);
      } else {
        var j :| 0 <= j < |rest| && rest[j] == all[i];
        assert ([first] + rest)[j + 1] == all[i];
      }
    }
  }

  /** The standard library's sort. */
  method SortDiffs(diffs: seq<KindDiff>, ghost byName: bool) returns (sorted: seq<KindDiff>)
    requires OnePerKey(diffs, byName)
    ensures |sorted| == |diffs| && (forall diff :: diff in sorted <==> diff in diffs)
    ensures InOrder(sorted) && OnePerKey(sorted, byName)
  {
    sorted := [];
    for i := 0 to |diffs|
      invariant |sorted| == i && (forall diff :: diff in sorted <==> diff in diffs[..i])
      invariant InOrder(sorted) && OnePerKey(sorted, byName)
    {
      forall j | 0 <= j < |sorted| ensures DiffKey(sorted[j], byName) != DiffKey(diffs[i], byName) {
        assert sorted[j] in diffs[..i];
      }
      Inserted(diffs[i], sorted, byName);
      sorted := Insert(diffs[i], sorted);
    }
  }

  // ---------------------------------------------------------------------------
  // All objects of a kind
  // ---------------------------------------------------------------------------

  function Keys(objects: seq<Value>, byName: bool): set<string> {
    if objects == [] then {}
    else Keys(objects[..|objects| - 1], byName) + {KeyOf(objects[|objects| - 1], byName)}
  }

  lemma {:induction false} LastIsRoot(objects: seq<Value>, byName: bool, key: string)
    ensures LastWith(objects, byName, key).Some? <==> key in Keys(objects, byName)
    ensures LastWith(objects, byName, key).Some? ==>
              LastWith(objects, byName, key).value in objects && KeyOf(LastWith(objects, byName, key).value, byName) == key
  {
    if objects != [] {
      LastIsRoot(objects[..|objects| - 1], byName, key);
    }
  }

  /** Every diff is the right verdict on the objects of its key. */
  ghost predicate AllJudged(yaml: Yaml, diffs: seq<KindDiff>, left: seq<Value>, right: seq<Value>, byName: bool, keep: bool)
    requires Roots(left) && Roots(right)
  {
    forall i | 0 <= i < |diffs| :: Judged(yaml, diffs[i], left, right, byName, keep)
  }

  ghost predicate Judged(yaml: Yaml, diff: KindDiff, left: seq<Value>, right: seq<Value>, byName: bool, keep: bool)
    requires Roots(left) && Roots(right)
  {
    var here, there := LastWith(left, byName, DiffKey(diff, byName)), LastWith(right, byName, DiffKey(diff, byName));
    (here.Some? ==> here.value.Obj?) && (there.Some? ==> there.value.Obj?) && Judges(yaml, diff, here, there, keep)
  }

  /** One right verdict for each of these keys. */
  ghost predicate Collected(yaml: Yaml, diffs: seq<KindDiff>, done: set<string>, left: seq<Value>, right: seq<Value>, byName: bool, keep: bool)
    requires Roots(left) && Roots(right)
  {
    |diffs| == |done| && OnePerKey(diffs, byName) && AllJudged(yaml, diffs, left, right, byName, keep) &&
    forall i | 0 <= i < |diffs| :: DiffKey(diffs[i], byName) in done
  }

  lemma Collect(yaml: Yaml, diffs: seq<KindDiff>, done: set<string>, diff: KindDiff, left: seq<Value>, right: seq<Value>, byName: bool, keep: bool)
    requires Roots(left) && Roots(right) && Collected(yaml, diffs, done, left, right, byName, keep)
    requires Judged(yaml, diff, left, right, byName, keep) && DiffKey(diff, byName) !in done
    ensures Collected(yaml, diffs + [diff], done + {DiffKey(diff, byName)}, left, right, byName, keep)
  {}

  /** The index of a side. */
  ghost predicate Indexes(index: map<string, Value>, objects: seq<Value>, byName: bool) {
    (forall key :: LastWith(objects, byName, key) == if key in index then Some(index[key]) else None) &&
    forall key | key in index :: KeyOf(index[key], byName) == key && index[key] in objects
  }

  lemma IndexKeys(index: map<string, Value>, objects: seq<Value>, byName: bool)
    requires Indexes(index, objects, byName)
    ensures index.Keys == Keys(objects, byName)
  {
    forall key ensures key in index <==> key in Keys(objects, byName) {
      LastIsRoot(objects, byName, key);
    }
  }

  /** The verdict on one key. */
  method Judge(yaml: Yaml, here: map<string, Value>, there: map<string, Value>, key: string,
               ghost left: seq<Value>, ghost right: seq<Value>, byName: bool, keep: bool)
    returns (diff: KindDiff)
    requires Roots(left) && Roots(right) && Indexes(here, left, byName) && Indexes(there, right, byName)
    requires key in here || key in there
    ensures DiffKey(diff, byName) == key && Judged(yaml, diff, left, right, byName, keep)
  {
    if key !in here {
      diff := KindDiff(MetadataText(there[key], "namespace"), MetadataText(there[key], "name"), OnlyThere, 0, false);
    } else if key in there {
      diff := Compared(yaml, here[key], there[key], keep);
    } else {
      diff := KindDiff(MetadataText(here[key], "namespace"), MetadataText(here[key], "name"), OnlyHere, 0, false);
    }
  }

  /** One verdict for every key on either side. */
  method Verdicts(yaml: Yaml, left: seq<Value>, right: seq<Value>, byName: bool, keep: bool) returns (out: seq<KindDiff>)
    requires Roots(left) && Roots(right)
    ensures Collected(yaml, out, Keys(left, byName) + Keys(right, byName), left, right, byName, keep)
  {
    var here := Index(left, byName);
    var there := Index(right, byName);
    out := EachKey(yaml, here, there, here.Keys, [], {}, left, right, byName, keep);
    out := EachKey(yaml, here, there, there.Keys - here.Keys, out, {} + here.Keys, left, right, byName, keep);
    BothSides(here, there, left, right, byName);
  }

  lemma BothSides(here: map<string, Value>, there: map<string, Value>, left: seq<Value>, right: seq<Value>, byName: bool)
    requires Indexes(here, left, byName) && Indexes(there, right, byName)
    ensures {} + here.Keys + (there.Keys - here.Keys) == Keys(left, byName) + Keys(right, byName)
  {
    IndexKeys(here, left, byName);
    IndexKeys(there, right, byName);
  }

  /** The verdicts in order. */
  method Kinds(yaml: Yaml, left: seq<Value>, right: seq<Value>, byName: bool, keep: bool) returns (out: seq<KindDiff>)
    requires Roots(left) && Roots(right)
    ensures |out| == |Keys(left, byName) + Keys(right, byName)|
    ensures OnePerKey(out, byName) && InOrder(out)
    ensures AllJudged(yaml, out, left, right, byName, keep)
  {
    var found := Verdicts(yaml, left, right, byName, keep);
    out := SortDiffs(found, byName);
    StillJudged(yaml, found, out, left, right, byName, keep);
  }

  lemma StillJudged(yaml: Yaml, found: seq<KindDiff>, sorted: seq<KindDiff>, left: seq<Value>, right: seq<Value>, byName: bool, keep: bool)
    requires Roots(left) && Roots(right) && AllJudged(yaml, found, left, right, byName, keep)
    requires forall diff :: diff in sorted <==> diff in found
    ensures AllJudged(yaml, sorted, left, right, byName, keep)
  {
    forall i | 0 <= i < |sorted| ensures Judged(yaml, sorted[i], left, right, byName, keep) {
      assert sorted[i] in found;
    }
  }

  /** One loop over the keys of a side. */
  method EachKey(yaml: Yaml, here: map<string, Value>, there: map<string, Value>, side: set<string>, before: seq<KindDiff>,
                 ghost known: set<string>, ghost left: seq<Value>, ghost right: seq<Value>, byName: bool, keep: bool)
    returns (out: seq<KindDiff>)
    requires Roots(left) && Roots(right) && Indexes(here, left, byName) && Indexes(there, right, byName)
    requires side <= here.Keys + there.Keys && side !! known
    requires Collected(yaml, before, known, left, right, byName, keep)
    ensures Collected(yaml, out, known + side, left, right, byName, keep)
  {
    out := before;
    var keys := side;
    ghost var done := known;
    while keys != {}
      invariant keys <= side && done !! keys && done + keys == known + side
      invariant Collected(yaml, out, done, left, right, byName, keep)
      decreases keys
    {
      var key :| key in keys;
      var diff := Judge(yaml, here, there, key, left, right, byName, keep);
      Collect(yaml, out, done, diff, left, right, byName, keep);
      out := out + [diff];
      keys, done := keys - {key}, done + {key};
    }
    assert done == known + side;
  }

  datatype Tallied = Tallied(same: nat, differs: nat, onlyHere: nat, onlyThere: nat)

  function CountOf(diffs: seq<KindDiff>, verdict: Verdict): nat {
    if diffs == [] then 0
    else CountOf(diffs[..|diffs| - 1], verdict) + if diffs[|diffs| - 1].verdict == verdict then 1 else 0
  }

  method Tally(diffs: seq<KindDiff>) returns (tally: Tallied)
    ensures tally.same == CountOf(diffs, Same) && tally.differs == CountOf(diffs, Differs)
    ensures tally.onlyHere == CountOf(diffs, OnlyHere) && tally.onlyThere == CountOf(diffs, OnlyThere)
    ensures tally.same + tally.differs + tally.onlyHere + tally.onlyThere == |diffs|
  {
    tally := Tallied(0, 0, 0, 0);
    for i := 0 to |diffs|
      invariant tally == Tallied(CountOf(diffs[..i], Same), CountOf(diffs[..i], Differs), CountOf(diffs[..i], OnlyHere), CountOf(diffs[..i], OnlyThere))
      invariant tally.same + tally.differs + tally.onlyHere + tally.onlyThere == i
    {
      assert diffs[..i + 1][..i] == diffs[..i];
      match diffs[i].verdict
      case Same => tally := tally.(same := tally.same + 1);
      case Differs => tally := tally.(differs := tally.differs + 1);
      case OnlyHere => tally := tally.(onlyHere := tally.onlyHere + 1);
      case OnlyThere => tally := tally.(onlyThere := tally.onlyThere + 1);
    }
    assert diffs[..|diffs|] == diffs;
  }
}
