/** Baselines of findings as stored (internal/baseline/store.go): a token stream is written under
    limits and read back under the same limits. Text goes out as UTF-8 and field by field comes
    back in; the loops of the streaming reader are methods, each proved against the function that
    says what it reads. The characters of a string are its bytes. */
module Baseline {
  import opened Options
  import opened Sizes

  const MAX_KEYS := 50_000
  const MAX_BYTES := 8 * 1024 * 1024
  const MAX_CONTENT := 4 * 1024 * 1024
  const MAX_CHECKS := 512
  const MAX_COUNTS := 512

  type Counts = map<string, int>
  type Keys = map<string, string>

  /** A map that is None is the nil map. */
  datatype Baseline = Baseline(
    cluster: string, takenAt: string, checks: seq<string>, counts: Option<Counts>, scanned: int, keys: Option<Keys>)

  datatype Token = ObjectOpen | ObjectClose | ListOpen | ListClose | Null | Bool(on: bool) | Text(text: string) | Number(number: int) | Fraction

  datatype Refusal =
    | Malformed
    | NotAnObject
    | UnknownField(name: string)
    | Trailing
    | NotAList
    | TooManyChecks
    | TooManyCounts
    | TooManyKeys
    | TooMuchContent
    | TooBig
    | NamesNothing

  predicate Int64(n: int) {
    -0x8000_0000_0000_0000 <= n < 0x8000_0000_0000_0000
  }

  // ---------------------------------------------------------------------------
  // The limits
  // ---------------------------------------------------------------------------

  /** The bytes of all keys and values. */
  ghost function Content(keys: Keys): nat {
    if keys == map[] then 0
    else
      var key :| key in keys;
      |key| + |keys[key]| + Content(keys - {key})
  }

  lemma {:induction false} ContentWithout(keys: Keys, key: string)
    requires key in keys
    ensures Content(keys) == |key| + |keys[key]| + Content(keys - {key})
    decreases |keys.Keys|
  {
    var first :| first in keys && Content(keys) == |first| + |keys[first]| + Content(keys - {first});
    if first != key {
      ContentWithout(keys - {first}, key);
      ContentWithout(keys - {key}, first);
      assert keys - {first} - {key} == keys - {key} - {first};
    }
  }

  lemma ContentWith(keys: Keys, key: string, value: string)
    ensures Content(keys[key := value]) == Content(keys - {key}) + |key| + |value|
    ensures Content(keys - {key}) <= Content(keys)
  {
    ContentWithout(keys[key := value], key);
    assert keys[key := value] - {key} == keys - {key};
    if key in keys {
      ContentWithout(keys, key);
    } else {
      assert keys - {key} == keys;
    }
  }

  function MapOr<K, V>(held: Option<map<K, V>>): map<K, V> {
    if held.Some? then held.value else map[]
  }

  ghost predicate WithinLimits(b: Baseline) {
    |MapOr(b.keys)| <= MAX_KEYS && |b.checks| <= MAX_CHECKS && |MapOr(b.counts)| <= MAX_COUNTS &&
    Content(MapOr(b.keys)) <= MAX_CONTENT
  }

  ghost predicate Storable(b: Baseline) {
    b.takenAt != "" && b.checks != [] && WithinLimits(b)
  }

  method Validate(b: Baseline) returns (fault: Option<Refusal>)
    ensures fault.None? <==> Storable(b)
    ensures fault == Some(NamesNothing) <==> b.takenAt == "" || b.checks == []
  {
    if b.takenAt == "" || |b.checks| == 0 {
      return Some(NamesNothing);
    }
    var keys := MapOr(b.keys);
    if |keys| > MAX_KEYS {
      return Some(TooManyKeys);
    }
    if |b.checks| > MAX_CHECKS {
      return Some(TooManyChecks);
    }
    if |MapOr(b.counts)| > MAX_COUNTS {
      return Some(TooManyCounts);
    }
    var contentBytes := 0;
    var left := keys;
    while left != map[]
      invariant contentBytes + Content(left) == Content(keys) && contentBytes <= MAX_CONTENT
      decreases |left.Keys|
    {
      var key :| key in left;
      ContentWithout(left, key);
      contentBytes := contentBytes + |key| + |left[key]|;
      if contentBytes > MAX_CONTENT {
        return Some(TooMuchContent);
      }
      left := left - {key};
    }
    return None;
  }

  // ---------------------------------------------------------------------------
  // What is written
  // ---------------------------------------------------------------------------

  type Entries<V> = seq<(string, V)>

  function FromEntries<V>(entries: Entries<V>): map<string, V> {
    if entries == [] then map[]
    else
      var last := entries[|entries| - 1];
      FromEntries(entries[..|entries| - 1])[last.0 := last.1]
  }

  /** The entries of a map in some order, each key once; the encoder writes them sorted. */
  predicate Unrepeated<V>(entries: Entries<V>) {
    forall i, j | 0 <= i < j < |entries| :: entries[i].0 != entries[j].0
  }

  predicate Spells<V(==)>(entries: Entries<V>, held: map<string, V>) {
    Unrepeated(entries) && FromEntries(entries) == held
  }

  /** A token in front of the rest of the stream. */
  function Cons(token: Token, rest: seq<Token>): (tokens: seq<Token>)
    ensures |tokens| == |rest| + 1 && tokens[0] == token && tokens[1..] == rest
  {
    [token] + rest
  }

  // Each function writes one part in front of what comes after it.

  function Names(names: seq<string>, rest: seq<Token>): seq<Token> {
    if names == [] then Cons(ListClose, rest) else Cons(Text(names[0]), Names(names[1..], rest))
  }

  function CountEntries(counts: Entries<int>, rest: seq<Token>): seq<Token> {
    if counts == [] then Cons(ObjectClose, rest)
    else Cons(Text(counts[0].0), Cons(Number(counts[0].1), CountEntries(counts[1..], rest)))
  }

  function KeyEntries(keys: Entries<string>, rest: seq<Token>): seq<Token> {
    if keys == [] then Cons(ObjectClose, rest)
    else Cons(Text(keys[0].0), Cons(Text(keys[0].1), KeyEntries(keys[1..], rest)))
  }

  function CountsValue(counts: Option<Entries<int>>, rest: seq<Token>): seq<Token> {
    if counts.None? then Cons(Null, rest) else Cons(ObjectOpen, CountEntries(counts.value, rest))
  }

  function KeysValue(keys: Option<Entries<string>>, rest: seq<Token>): seq<Token> {
    if keys.None? then Cons(Null, rest) else Cons(ObjectOpen, KeyEntries(keys.value, rest))
  }

  // Field after field, the empty cluster and a scan of nothing left out.

  function FromKeys(keys: Option<Entries<string>>): seq<Token> {
    Cons(Text("keys"), KeysValue(keys, [ObjectClose]))
  }

  function FromScanned(scanned: int, keys: Option<Entries<string>>): seq<Token> {
    if scanned == 0 then FromKeys(keys) else Cons(Text("scanned"), Cons(Number(scanned), FromKeys(keys)))
  }

  function FromCounts(b: Baseline, counts: Option<Entries<int>>, keys: Option<Entries<string>>): seq<Token> {
    Cons(Text("counts"), CountsValue(counts, FromScanned(b.scanned, keys)))
  }

  function FromChecks(b: Baseline, counts: Option<Entries<int>>, keys: Option<Entries<string>>): seq<Token> {
    Cons(Text("checks"), Cons(ListOpen, Names(b.checks, FromCounts(b, counts, keys))))
  }

  function FromTakenAt(b: Baseline, counts: Option<Entries<int>>, keys: Option<Entries<string>>): seq<Token> {
    Cons(Text("takenAt"), Cons(Text(b.takenAt), FromChecks(b, counts, keys)))
  }

  function WithCluster(cluster: string, rest: seq<Token>): seq<Token> {
    Cons(ObjectOpen, if cluster == "" then rest else Cons(Text("cluster"), Cons(Text(cluster), rest)))
  }

  function Laid(b: Baseline, counts: Option<Entries<int>>, keys: Option<Entries<string>>): seq<Token> {
    WithCluster(b.cluster, FromTakenAt(b, counts, keys))
  }

  // The encoder writes UTF-8 only (RFC 3629): a byte that starts no character is written as the
  // replacement character.

  const REPLACEMENT := ['\U{EF}', '\U{BF}', '\U{BD}']

  predicate Between(text: string, i: nat, low: char, high: char) {
    i < |text| && low <= text[i] <= high
  }

  predicate Continued(text: string, i: nat) {
    Between(text, i, '\U{80}', '\U{BF}')
  }

  /** The second of three bytes: no overlong form and no surrogate. */
  predicate SecondOfThree(text: string)
    requires text != ""
  {
    if text[0] == '\U{E0}' then Between(text, 1, '\U{A0}', '\U{BF}')
    else if text[0] == '\U{ED}' then Between(text, 1, '\U{80}', '\U{9F}')
    else Continued(text, 1)
  }

  /** The second of four bytes: no overlong form and nothing above the last code point. */
  predicate SecondOfFour(text: string)
    requires text != ""
  {
    if text[0] == '\U{F0}' then Between(text, 1, '\U{90}', '\U{BF}')
    else if text[0] == '\U{F4}' then Between(text, 1, '\U{80}', '\U{8F}')
    else Continued(text, 1)
  }

  /** The bytes of the character a text starts with, none when it starts with no character. */
  function CharBytes(text: string): (size: nat)
    requires text != ""
    ensures size <= |text|
  {
    if text[0] < '\U{80}' then 1
    else if Between(text, 0, '\U{C2}', '\U{DF}') && Continued(text, 1) then 2
    else if Between(text, 0, '\U{E0}', '\U{EF}') && SecondOfThree(text) && Continued(text, 2) then 3
    else if Between(text, 0, '\U{F0}', '\U{F4}') && SecondOfFour(text) && Continued(text, 2) && Continued(text, 3) then 4
    else 0
  }

  predicate Utf8(text: string) {
    text == "" || (CharBytes(text) > 0 && Utf8(text[CharBytes(text)..]))
  }

  /** A text as it comes out of the encoder. */
  function Wire(text: string): string {
    if text == "" then ""
    else if CharBytes(text) == 0 then REPLACEMENT + Wire(text[1..])
    else text[..CharBytes(text)] + Wire(text[CharBytes(text)..])
  }

  lemma {:induction false} WireKeepsIff(text: string)
    ensures Wire(text) == text <==> Utf8(text)
    decreases |text|
  {
    if text != "" {
      var size := CharBytes(text);
      if size > 0 {
        WireKeepsIff(text[size..]);
        assert text == text[..size] + text[size..];
      } else if Wire(text) == text {
        assert false;
      }
    }
  }

  /** A lone byte that starts no character goes out as the replacement character. */
  lemma LoneByteIsReplaced(byte: char)
    requires '\U{80}' <= byte <= '\U{FF}'
    ensures !Utf8([byte]) && Wire([byte]) == REPLACEMENT != [byte]
  {
    assert CharBytes([byte]) == 0 && [byte][1..] == "";
  }

  lemma CharBytesOf(first: string, rest: string)
    requires first != "" && CharBytes(first) == |first|
    ensures CharBytes(first + rest) == |first| && (first + rest)[|first|..] == rest
  {}

  lemma {:induction false} WireIsUtf8(text: string)
    ensures Utf8(Wire(text))
    decreases |text|
  {
    if text != "" {
      var size := CharBytes(text);
      if size == 0 {
        WireIsUtf8(text[1..]);
        CharBytesOf(REPLACEMENT, Wire(text[1..]));
      } else {
        WireIsUtf8(text[size..]);
        CharBytesOf(text[..size], Wire(text[size..]));
      }
    }
  }

  function WiredNames(names: seq<string>): seq<string> {
    seq(|names|, i requires 0 <= i < |names| => Wire(names[i]))
  }

  function WiredCounts(counts: Entries<int>): Entries<int> {
    seq(|counts|, i requires 0 <= i < |counts| => (Wire(counts[i].0), counts[i].1))
  }

  function WiredKeys(keys: Entries<string>): Entries<string> {
    seq(|keys|, i requires 0 <= i < |keys| => (Wire(keys[i].0), Wire(keys[i].1)))
  }

  function Wired(b: Baseline): Baseline {
    b.(cluster := Wire(b.cluster), takenAt := Wire(b.takenAt), checks := WiredNames(b.checks))
  }

  function IfSome<T, U>(held: Option<T>, each: T -> U): Option<U> {
    if held.Some? then Some(each(held.value)) else None
  }

  /** What the encoder writes. */
  function Written(b: Baseline, counts: Option<Entries<int>>, keys: Option<Entries<string>>): seq<Token> {
    Laid(Wired(b), IfSome(counts, WiredCounts), IfSome(keys, WiredKeys))
  }

  predicate SpellsMaybe<V(==)>(entries: Option<Entries<V>>, held: Option<map<string, V>>) {
    (entries.None? <==> held.None?) && (entries.Some? ==> Spells(entries.value, held.value))
  }

  // ---------------------------------------------------------------------------
  // What is read
  // ---------------------------------------------------------------------------

  datatype Parsed<T> = Parsed(value: T, rest: seq<Token>)

  type Read<T> = Result<Parsed<T>, Refusal>

  /** One text into a variable; a null leaves it as it was. */
  function ReadText(tokens: seq<Token>, was: string): Read<string> {
    if tokens == [] then Err(Malformed)
    else match tokens[0]
      case Text(text) => Ok(Parsed(text, tokens[1..]))
      case Null => Ok(Parsed(was, tokens[1..]))
      case _ => Err(Malformed)
  }

  function ReadNumber(tokens: seq<Token>, was: int): Read<int> {
    if tokens == [] then Err(Malformed)
    else match tokens[0]
      case Number(number) => if Int64(number) then Ok(Parsed(number, tokens[1..])) else Err(Malformed)
      case Null => Ok(Parsed(was, tokens[1..]))
      case _ => Err(Malformed)
  }

  predicate More(tokens: seq<Token>) {
    tokens != [] && tokens[0] != ObjectClose && tokens[0] != ListClose
  }

  function Closed<T>(tokens: seq<Token>, close: Token, value: T): Read<T> {
    if tokens != [] && tokens[0] == close then Ok(Parsed(value, tokens[1..])) else Err(Malformed)
  }

  function ReadNames(tokens: seq<Token>, names: seq<string>): Read<seq<string>>
    decreases |tokens|
  {
    if !More(tokens) then Closed(tokens, ListClose, names)
    else if |names| == MAX_CHECKS then Err(TooManyChecks)
    else match ReadText(tokens, "")
      case Err(error) => Err(error)
      case Ok(one) => ReadNames(one.rest, names + [one.value])
  }

  function ReadChecks(tokens: seq<Token>): Read<seq<string>> {
    if tokens == [] then Err(Malformed)
    else if tokens[0] != ListOpen then Err(NotAList)
    else ReadNames(tokens[1..], [])
  }

  function ReadCountEntries(tokens: seq<Token>, counts: Counts): Read<Counts>
    decreases |tokens|
  {
    if !More(tokens) then Closed(tokens, ObjectClose, counts)
    else if |counts| == MAX_COUNTS then Err(TooManyCounts)
    else if !tokens[0].Text? then Err(Malformed)
    else match ReadNumber(tokens[1..], 0)
      case Err(error) => Err(error)
      case Ok(one) => ReadCountEntries(one.rest, counts[tokens[0].text := one.value])
  }

  function ReadCounts(tokens: seq<Token>): Read<Option<Counts>> {
    if tokens == [] then Err(Malformed)
    else if tokens[0] == Null then Ok(Parsed(Some(map[]), tokens[1..]))
    else if tokens[0] != ObjectOpen then Err(NotAnObject)
    else match ReadCountEntries(tokens[1..], map[])
      case Err(error) => Err(error)
      case Ok(read) => Ok(Parsed(Some(read.value), read.rest))
  }

  function ReadKeyEntries(tokens: seq<Token>, keys: Keys, contentBytes: nat): Read<Keys>
    decreases |tokens|
  {
    if !More(tokens) then Closed(tokens, ObjectClose, keys)
    else if |keys| == MAX_KEYS then Err(TooManyKeys)
    else if !tokens[0].Text? then Err(Malformed)
    else match ReadText(tokens[1..], "")
      case Err(error) => Err(error)
      case Ok(one) =>
        var content := contentBytes + |tokens[0].text| + |one.value|;
        if content > MAX_CONTENT then Err(TooMuchContent)
        else ReadKeyEntries(one.rest, keys[tokens[0].text := one.value], content)
  }

  function ReadKeys(tokens: seq<Token>): Read<Option<Keys>> {
    if tokens == [] then Err(Malformed)
    else if tokens[0] == Null then Ok(Parsed(Some(map[]), tokens[1..]))
    else if tokens[0] != ObjectOpen then Err(NotAnObject)
    else match ReadKeyEntries(tokens[1..], map[], 0)
      case Err(error) => Err(error)
      case Ok(read) => Ok(Parsed(Some(read.value), read.rest))
  }

  function Then<T>(read: Read<T>, held: T -> Baseline): Read<Baseline> {
    match read
    case Err(error) => Err(error)
    case Ok(one) => Ok(Parsed(held(one.value), one.rest))
  }

  datatype Name = Cluster | TakenAt | Checks | CountsField | Scanned | KeysField | Unknown

  function Known(name: string): Name {
    if name == "cluster" then Cluster
    else if name == "takenAt" then TakenAt
    else if name == "checks" then Checks
    else if name == "counts" then CountsField
    else if name == "scanned" then Scanned
    else if name == "keys" then KeysField
    else Unknown
  }

  lemma KnownNames()
    ensures Known("cluster") == Cluster && Known("takenAt") == TakenAt && Known("checks") == Checks
    ensures Known("counts") == CountsField && Known("scanned") == Scanned && Known("keys") == KeysField
  {}

  function ReadField(tokens: seq<Token>, held: Baseline, name: string): Read<Baseline> {
    match Known(name)
    case Cluster => Then(ReadText(tokens, held.cluster), text => held.(cluster := text))
    case TakenAt => Then(ReadText(tokens, held.takenAt), text => held.(takenAt := text))
    case Checks => Then(ReadChecks(tokens), names => held.(checks := names))
    case CountsField => Then(ReadCounts(tokens), counts => held.(counts := counts))
    case Scanned => Then(ReadNumber(tokens, held.scanned), number => held.(scanned := number))
    case KeysField => Then(ReadKeys(tokens), keys => held.(keys := keys))
    case Unknown => Err(UnknownField(name))
  }

  lemma ReadsOn(tokens: seq<Token>, held: Baseline, name: string)
    ensures ReadField(tokens, held, name).Ok? ==> |ReadField(tokens, held, name).value.rest| < |tokens|
  {
    if tokens != [] {
      NamesReadOn(tokens[1..], []);
      CountsReadOn(tokens[1..], map[]);
      KeysReadOn(tokens[1..], map[], 0);
    }
  }

  lemma {:induction false} NamesReadOn(tokens: seq<Token>, names: seq<string>)
    ensures ReadNames(tokens, names).Ok? ==> |ReadNames(tokens, names).value.rest| < |tokens|
    decreases |tokens|
  {
    if More(tokens) && ReadText(tokens, "").Ok? {
      NamesReadOn(tokens[1..], names + [ReadText(tokens, "").value.value]);
    }
  }

  lemma {:induction false} CountsReadOn(tokens: seq<Token>, counts: Counts)
    ensures ReadCountEntries(tokens, counts).Ok? ==> |ReadCountEntries(tokens, counts).value.rest| < |tokens|
    decreases |tokens|
  {
    if More(tokens) && tokens[0].Text? && ReadNumber(tokens[1..], 0).Ok? {
      var one := ReadNumber(tokens[1..], 0).value;
      CountsReadOn(one.rest, counts[tokens[0].text := one.value]);
    }
  }

  lemma {:induction false} KeysReadOn(tokens: seq<Token>, keys: Keys, contentBytes: nat)
    ensures ReadKeyEntries(tokens, keys, contentBytes).Ok? ==> |ReadKeyEntries(tokens, keys, contentBytes).value.rest| < |tokens|
    decreases |tokens|
  {
    if More(tokens) && tokens[0].Text? && ReadText(tokens[1..], "").Ok? {
      var one := ReadText(tokens[1..], "").value;
      KeysReadOn(one.rest, keys[tokens[0].text := one.value], contentBytes + |tokens[0].text| + |one.value|);
    }
  }

  function ReadFields(tokens: seq<Token>, held: Baseline): Read<Baseline>
    decreases |tokens|
  {
    if !More(tokens) then Closed(tokens, ObjectClose, held)
    else if !tokens[0].Text? then Err(Malformed)
    else match ReadField(tokens[1..], held, tokens[0].text)
      case Err(error) => Err(error)
      case Ok(one) => ReadsOn(tokens[1..], held, tokens[0].text); ReadFields(one.rest, one.value)
  }

  const NOTHING := Baseline("", "", [], None, 0, None)

  /** One object and nothing behind it. */
  function ReadStored(tokens: seq<Token>): Result<Baseline, Refusal> {
    if tokens == [] then Err(Malformed)
    else if tokens[0] != ObjectOpen then Err(NotAnObject)
    else match ReadFields(tokens[1..], NOTHING)
      case Err(error) => Err(error)
      case Ok(read) => if read.rest == [] then Ok(read.value) else Err(Trailing)
  }

  function AsBaseline(held: Baseline): Baseline {
    held.(keys := Some(MapOr(held.keys)))
  }

  // ---------------------------------------------------------------------------
  // Reading back what was written
  // ---------------------------------------------------------------------------

  lemma {:induction false} NamesReadBack(names: seq<string>, left: seq<string>, rest: seq<Token>)
    requires |names| + |left| <= MAX_CHECKS
    ensures ReadNames(Names(left, rest), names) == Ok(Parsed(names + left, rest))
    decreases |left|
  {
    if left == [] {
      assert names + left == names;
    } else {
      NamesReadBack(names + [left[0]], left[1..], rest);
      assert names + [left[0]] + left[1..] == names + left;
    }
  }

  lemma {:induction false} EntriesBound<V>(entries: Entries<V>)
    ensures |FromEntries(entries)| <= |entries|
    ensures Unrepeated(entries) ==> |FromEntries(entries)| == |entries|
    ensures forall key :: key in FromEntries(entries) <==> exists i | 0 <= i < |entries| :: entries[i].0 == key
  {
    if entries != [] {
      var front, last := entries[..|entries| - 1], entries[|entries| - 1];
      EntriesBound(front);
      var m := FromEntries(front);
      assert m[last.0 := last.1].Keys == m.Keys + {last.0};
      assert |m.Keys| == |m| && |m[last.0 := last.1].Keys| == |m[last.0 := last.1]|;
      forall i | 0 <= i < |front| ensures entries[i] == front[i] {}
    }
  }

  function EntryContent(entries: Entries<string>): nat {
    if entries == [] then 0
    else EntryContent(entries[..|entries| - 1]) + |entries[|entries| - 1].0| + |entries[|entries| - 1].1|
  }

  lemma NewKey(front: Entries<string>, last: (string, string))
    requires Unrepeated(front + [last])
    ensures Unrepeated(front) && last.0 !in FromEntries(front)
  {
    EntriesBound(front);
    forall i | 0 <= i < |front| ensures front[i].0 != last.0 {
      assert (front + [last])[i] == front[i] && (front + [last])[|front|] == last;
    }
    forall i, j | 0 <= i < j < |front| ensures front[i].0 != front[j].0 {
      assert (front + [last])[i] == front[i] && (front + [last])[j] == front[j];
    }
  }

  /** Reading adds up exactly what is kept when no key comes twice. */
  lemma {:induction false} ContentOfEntries(entries: Entries<string>)
    requires Unrepeated(entries)
    ensures Content(FromEntries(entries)) == EntryContent(entries)
  {
    if entries != [] {
      var front, last := entries[..|entries| - 1], entries[|entries| - 1];
      assert entries == front + [last];
      NewKey(front, last);
      ContentOfEntries(front);
      NewContent(FromEntries(front), last.0, last.1);
    }
  }

  lemma NewContent(keys: Keys, key: string, value: string)
    requires key !in keys
    ensures Content(keys[key := value]) == Content(keys) + |key| + |value|
  {
    ContentWith(keys, key, value);
    assert keys - {key} == keys;
  }

  lemma MoveOne<V>(done: Entries<V>, left: Entries<V>)
    requires left != []
    ensures done + [left[0]] + left[1..] == done + left
    ensures FromEntries(done + [left[0]]) == FromEntries(done)[left[0].0 := left[0].1]
  {
    OneMoreEntry(done, left[0]);
    assert left == [left[0]] + left[1..];
  }

  lemma OneMoreEntry<V>(done: Entries<V>, entry: (string, V))
    ensures FromEntries(done + [entry]) == FromEntries(done)[entry.0 := entry.1]
  {
    assert (done + [entry])[..|done|] == done;
  }

  lemma CountEntryReads(key: string, number: int, rest: seq<Token>, counts: Counts)
    requires Int64(number) && |counts| < MAX_COUNTS
    ensures ReadCountEntries(Cons(Text(key), Cons(Number(number), rest)), counts) == ReadCountEntries(rest, counts[key := number])
  {}

  lemma KeyEntryReads(key: string, value: string, rest: seq<Token>, keys: Keys, contentBytes: nat)
    requires |keys| < MAX_KEYS && contentBytes + |key| + |value| <= MAX_CONTENT
    ensures ReadKeyEntries(Cons(Text(key), Cons(Text(value), rest)), keys, contentBytes) ==
            ReadKeyEntries(rest, keys[key := value], contentBytes + |key| + |value|)
  {}

  lemma {:induction false} CountsReadBack(done: Entries<int>, left: Entries<int>, rest: seq<Token>)
    requires |done| + |left| <= MAX_COUNTS
    requires forall i | 0 <= i < |left| :: Int64(left[i].1)
    ensures ReadCountEntries(CountEntries(left, rest), FromEntries(done)) == Ok(Parsed(FromEntries(done + left), rest))
    decreases |left|
  {
    if left == [] {
      assert done + left == done;
    } else {
      EntriesBound(done);
      MoveOne(done, left);
      CountsReadBack(done + [left[0]], left[1..], rest);
      CountEntryReads(left[0].0, left[0].1, CountEntries(left[1..], rest), FromEntries(done));
    }
  }

  lemma {:induction false} EntryContentGrows(done: Entries<string>, left: Entries<string>)
    ensures EntryContent(done) <= EntryContent(done + left)
  {
    if left == [] {
      assert done + left == done;
    } else {
      EntryContentGrows(done, left[..|left| - 1]);
      assert (done + left)[..|done + left| - 1] == done + left[..|left| - 1];
    }
  }

  lemma KeyMoves(done: Entries<string>, left: Entries<string>)
    requires left != [] && |done| + |left| <= MAX_KEYS && EntryContent(done + left) <= MAX_CONTENT
    ensures var more := done + [left[0]];
            more + left[1..] == done + left && FromEntries(more) == FromEntries(done)[left[0].0 := left[0].1] &&
            EntryContent(more) == EntryContent(done) + |left[0].0| + |left[0].1| <= MAX_CONTENT &&
            |FromEntries(done)| < MAX_KEYS
  {
    EntriesBound(done);
    MoveOne(done, left);
    EntryContentGrows(done + [left[0]], left[1..]);
    assert (done + [left[0]])[..|done|] == done;
  }

  lemma KeyReadsBack(done: Entries<string>, left: Entries<string>, rest: seq<Token>)
    requires left != [] && |done| + |left| <= MAX_KEYS && EntryContent(done + left) <= MAX_CONTENT
    ensures var more := done + [left[0]];
            ReadKeyEntries(KeyEntries(left, rest), FromEntries(done), EntryContent(done)) ==
            ReadKeyEntries(KeyEntries(left[1..], rest), FromEntries(more), EntryContent(more))
  {
    KeyMoves(done, left);
    KeyEntryReads(left[0].0, left[0].1, KeyEntries(left[1..], rest), FromEntries(done), EntryContent(done));
  }

  lemma {:induction false} KeysReadBack(done: Entries<string>, left: Entries<string>, rest: seq<Token>)
    requires |done| + |left| <= MAX_KEYS && EntryContent(done + left) <= MAX_CONTENT
    ensures ReadKeyEntries(KeyEntries(left, rest), FromEntries(done), EntryContent(done)) ==
            Ok(Parsed(FromEntries(done + left), rest))
    decreases |left|
  {
    if left == [] {
      assert done + left == done;
    } else {
      KeyReadsBack(done, left, rest);
      KeyMoves(done, left);
      KeysReadBack(done + [left[0]], left[1..], rest);
    }
  }

  // One field after another.

  lemma FieldReads(name: string, value: seq<Token>, held: Baseline)
    ensures ReadFields(Cons(Text(name), value), held) ==
            match ReadField(value, held, name)
            case Err(error) => Err(error)
            case Ok(one) => ReadFields(one.rest, one.value)
  {}

  /** A null leaves a text or a number as it was, and makes counts and keys empty; it is no list. */
  lemma NullReads(rest: seq<Token>, held: Baseline, name: string)
    ensures ReadField(Cons(Null, rest), held, name) ==
            if name == "cluster" || name == "takenAt" || name == "scanned" then Ok(Parsed(held, rest))
            else if name == "counts" then Ok(Parsed(held.(counts := Some(map[])), rest))
            else if name == "keys" then Ok(Parsed(held.(keys := Some(map[])), rest))
            else if name == "checks" then Err(NotAList)
            else Err(UnknownField(name))
  {}

  lemma ClusterReads(text: string, rest: seq<Token>, held: Baseline)
    ensures ReadFields(Cons(Text("cluster"), Cons(Text(text), rest)), held) == ReadFields(rest, held.(cluster := text))
  {
    KnownNames();
    FieldReads("cluster", Cons(Text(text), rest), held);
  }

  lemma TakenAtReads(text: string, rest: seq<Token>, held: Baseline)
    ensures ReadFields(Cons(Text("takenAt"), Cons(Text(text), rest)), held) == ReadFields(rest, held.(takenAt := text))
  {
    KnownNames();
    FieldReads("takenAt", Cons(Text(text), rest), held);
  }

  lemma ScannedReads(number: int, rest: seq<Token>, held: Baseline)
    requires Int64(number)
    ensures ReadFields(Cons(Text("scanned"), Cons(Number(number), rest)), held) == ReadFields(rest, held.(scanned := number))
  {
    KnownNames();
    FieldReads("scanned", Cons(Number(number), rest), held);
  }

  lemma ChecksReads(value: seq<Token>, rest: seq<Token>, held: Baseline, names: seq<string>)
    requires ReadChecks(value) == Ok(Parsed(names, rest))
    ensures ReadFields(Cons(Text("checks"), value), held) == ReadFields(rest, held.(checks := names))
  {
    KnownNames();
    FieldReads("checks", value, held);
  }

  lemma CountsReads(value: seq<Token>, rest: seq<Token>, held: Baseline, counts: Option<Counts>)
    requires ReadCounts(value) == Ok(Parsed(counts, rest))
    ensures ReadFields(Cons(Text("counts"), value), held) == ReadFields(rest, held.(counts := counts))
  {
    KnownNames();
    FieldReads("counts", value, held);
  }

  lemma KeysReads(value: seq<Token>, rest: seq<Token>, held: Baseline, keys: Option<Keys>)
    requires ReadKeys(value) == Ok(Parsed(keys, rest))
    ensures ReadFields(Cons(Text("keys"), value), held) == ReadFields(rest, held.(keys := keys))
  {
    KnownNames();
    FieldReads("keys", value, held);
  }

  lemma ChecksRead(names: seq<string>, rest: seq<Token>)
    requires |names| <= MAX_CHECKS
    ensures ReadChecks(Cons(ListOpen, Names(names, rest))) == Ok(Parsed(names, rest))
  {
    NamesReadBack([], names, rest);
    assert [] + names == names;
  }

  lemma CountsRead(counts: Option<Counts>, entries: Option<Entries<int>>, rest: seq<Token>)
    requires SpellsMaybe(entries, counts) && |MapOr(counts)| <= MAX_COUNTS
    requires forall key | key in MapOr(counts) :: Int64(MapOr(counts)[key])
    ensures ReadCounts(CountsValue(entries, rest)) == Ok(Parsed(Some(MapOr(counts)), rest))
  {
    if counts.Some? {
      EntriesBound(entries.value);
      SpelledValues(entries.value);
      assert [] + entries.value == entries.value;
      CountsReadBack([], entries.value, rest);
    }
  }

  lemma {:induction false} SpelledValues<V>(entries: Entries<V>)
    requires Unrepeated(entries)
    ensures forall i | 0 <= i < |entries| :: entries[i].0 in FromEntries(entries) && FromEntries(entries)[entries[i].0] == entries[i].1
  {
    if entries != [] {
      SpelledValues(entries[..|entries| - 1]);
    }
  }

  lemma SpelledSize(entries: Entries<string>, keys: Keys)
    requires Spells(entries, keys)
    ensures |entries| == |keys| && EntryContent(entries) == Content(keys) && FromEntries(entries) == keys
  {
    EntriesBound(entries);
    ContentOfEntries(entries);
  }

  lemma KeysRead(keys: Option<Keys>, entries: Option<Entries<string>>, rest: seq<Token>)
    requires SpellsMaybe(entries, keys) && |MapOr(keys)| <= MAX_KEYS && Content(MapOr(keys)) <= MAX_CONTENT
    ensures ReadKeys(KeysValue(entries, rest)) == Ok(Parsed(Some(MapOr(keys)), rest))
  {
    if keys.Some? {
      SpelledSize(entries.value, keys.value);
      ObjectReads(entries.value, rest);
    }
  }

  lemma ObjectReads(entries: Entries<string>, rest: seq<Token>)
    requires |entries| <= MAX_KEYS && EntryContent(entries) <= MAX_CONTENT
    ensures ReadKeys(Cons(ObjectOpen, KeyEntries(entries, rest))) == Ok(Parsed(Some(FromEntries(entries)), rest))
  {
    assert [] + entries == entries;
    KeysReadBack([], entries, rest);
  }

  /** Numbers fit the machine's integers. */
  predicate GoNumbers(b: Baseline) {
    Int64(b.scanned) && forall key | key in MapOr(b.counts) :: Int64(MapOr(b.counts)[key])
  }

  /** Nil maps come back empty. */
  function ReadBack(b: Baseline): Baseline {
    b.(counts := Some(MapOr(b.counts)), keys := Some(MapOr(b.keys)))
  }

  lemma KeysComeBack(b: Baseline, keys: Option<Entries<string>>, held: Baseline)
    requires Storable(b) && SpellsMaybe(keys, b.keys)
    ensures ReadFields(FromKeys(keys), held) == Ok(Parsed(held.(keys := Some(MapOr(b.keys))), []))
  {
    KeysRead(b.keys, keys, [ObjectClose]);
    KeysReads(KeysValue(keys, [ObjectClose]), [ObjectClose], held, Some(MapOr(b.keys)));
    assert [ObjectClose][1..] == [];
  }

  lemma ScannedComesBack(b: Baseline, keys: Option<Entries<string>>, held: Baseline)
    requires Storable(b) && GoNumbers(b) && SpellsMaybe(keys, b.keys) && held.scanned == 0
    ensures ReadFields(FromScanned(b.scanned, keys), held) == Ok(Parsed(held.(scanned := b.scanned, keys := Some(MapOr(b.keys))), []))
  {
    KeysComeBack(b, keys, held.(scanned := b.scanned));
    if b.scanned == 0 {
      assert held == held.(scanned := 0);
    } else {
      ScannedReads(b.scanned, FromKeys(keys), held);
    }
  }

  lemma CountsComeBack(b: Baseline, counts: Option<Entries<int>>, keys: Option<Entries<string>>, held: Baseline)
    requires Storable(b) && GoNumbers(b) && SpellsMaybe(counts, b.counts) && SpellsMaybe(keys, b.keys) && held.scanned == 0
    ensures ReadFields(FromCounts(b, counts, keys), held) ==
            Ok(Parsed(held.(counts := Some(MapOr(b.counts)), scanned := b.scanned, keys := Some(MapOr(b.keys))), []))
  {
    var rest := FromScanned(b.scanned, keys);
    CountsRead(b.counts, counts, rest);
    CountsReads(CountsValue(counts, rest), rest, held, Some(MapOr(b.counts)));
    ScannedComesBack(b, keys, held.(counts := Some(MapOr(b.counts))));
  }

  lemma ChecksComeBack(b: Baseline, counts: Option<Entries<int>>, keys: Option<Entries<string>>, held: Baseline)
    requires Storable(b) && GoNumbers(b) && SpellsMaybe(counts, b.counts) && SpellsMaybe(keys, b.keys)
    requires held == NOTHING.(cluster := b.cluster)
    ensures ReadFields(FromTakenAt(b, counts, keys), held) == Ok(Parsed(ReadBack(b), []))
  {
    var rest := FromCounts(b, counts, keys);
    var taken := held.(takenAt := b.takenAt);
    TakenAtReads(b.takenAt, FromChecks(b, counts, keys), held);
    ChecksRead(b.checks, rest);
    ChecksReads(Cons(ListOpen, Names(b.checks, rest)), rest, taken, b.checks);
    CountsComeBack(b, counts, keys, taken.(checks := b.checks));
  }

  lemma LaidReadsBack(b: Baseline, counts: Option<Entries<int>>, keys: Option<Entries<string>>)
    requires Storable(b) && GoNumbers(b) && SpellsMaybe(counts, b.counts) && SpellsMaybe(keys, b.keys)
    ensures ReadStored(Laid(b, counts, keys)) == Ok(ReadBack(b))
  {
    var rest := FromTakenAt(b, counts, keys);
    ChecksComeBack(b, counts, keys, NOTHING.(cluster := b.cluster));
    if b.cluster == "" {
      assert NOTHING.(cluster := "") == NOTHING;
    } else {
      ClusterReads(b.cluster, rest, NOTHING);
    }
  }

  // Text that is no UTF-8 does not come back.

  predicate Utf8Counts(counts: Counts) {
    forall key | key in counts :: Utf8(key)
  }

  predicate Utf8Keys(keys: Keys) {
    forall key | key in keys :: Utf8(key) && Utf8(keys[key])
  }

  predicate Utf8Names(names: seq<string>) {
    forall i | 0 <= i < |names| :: Utf8(names[i])
  }

  predicate Utf8Texts(b: Baseline) {
    Utf8(b.cluster) && Utf8(b.takenAt) && Utf8Names(b.checks) && Utf8Counts(MapOr(b.counts)) && Utf8Keys(MapOr(b.keys))
  }

  predicate Utf8Token(token: Token) {
    token.Text? ==> Utf8(token.text)
  }

  predicate Utf8Tokens(tokens: seq<Token>) {
    forall i | 0 <= i < |tokens| :: Utf8Token(tokens[i])
  }

  lemma Utf8Cons(token: Token, rest: seq<Token>)
    requires Utf8Token(token) && Utf8Tokens(rest)
    ensures Utf8Tokens(Cons(token, rest))
  {}

  predicate Ascii(text: string) {
    forall i | 0 <= i < |text| :: text[i] < '\U{80}'
  }

  lemma {:induction false} AsciiIsUtf8(text: string)
    requires Ascii(text)
    ensures Utf8(text)
  {
    if text != "" {
      AsciiIsUtf8(text[1..]);
    }
  }

  lemma FieldNamesAreAscii()
    ensures Ascii("cluster") && Ascii("takenAt") && Ascii("checks") && Ascii("counts") && Ascii("scanned") && Ascii("keys")
  {}

  lemma Utf8Field(name: string, value: seq<Token>)
    requires Ascii(name) && Utf8Tokens(value)
    ensures Utf8Tokens(Cons(Text(name), value))
  {
    AsciiIsUtf8(name);
    Utf8Cons(Text(name), value);
  }

  lemma {:induction false} NamesAreUtf8(names: seq<string>, rest: seq<Token>)
    requires Utf8Names(names) && Utf8Tokens(rest)
    ensures Utf8Tokens(Names(names, rest))
  {
    if names != [] {
      NamesAreUtf8(names[1..], rest);
      Utf8Cons(Text(names[0]), Names(names[1..], rest));
    }
  }

  predicate Utf8CountEntries(counts: Entries<int>) {
    forall i | 0 <= i < |counts| :: Utf8(counts[i].0)
  }

  predicate Utf8KeyEntries(keys: Entries<string>) {
    forall i | 0 <= i < |keys| :: Utf8(keys[i].0) && Utf8(keys[i].1)
  }

  lemma {:induction false} CountsAreUtf8(counts: Entries<int>, rest: seq<Token>)
    requires Utf8CountEntries(counts) && Utf8Tokens(rest)
    ensures Utf8Tokens(CountEntries(counts, rest))
  {
    if counts != [] {
      CountsAreUtf8(counts[1..], rest);
      Utf8Cons(Number(counts[0].1), CountEntries(counts[1..], rest));
      Utf8Cons(Text(counts[0].0), Cons(Number(counts[0].1), CountEntries(counts[1..], rest)));
    }
  }

  lemma {:induction false} KeysAreUtf8(keys: Entries<string>, rest: seq<Token>)
    requires Utf8KeyEntries(keys) && Utf8Tokens(rest)
    ensures Utf8Tokens(KeyEntries(keys, rest))
  {
    if keys != [] {
      KeysAreUtf8(keys[1..], rest);
      Utf8Cons(Text(keys[0].1), KeyEntries(keys[1..], rest));
      Utf8Cons(Text(keys[0].0), Cons(Text(keys[0].1), KeyEntries(keys[1..], rest)));
    }
  }

  lemma FromKeysIsUtf8(keys: Option<Entries<string>>)
    requires keys.Some? ==> Utf8KeyEntries(keys.value)
    ensures Utf8Tokens(FromKeys(keys))
  {
    FieldNamesAreAscii();
    if keys.Some? {
      KeysAreUtf8(keys.value, [ObjectClose]);
    }
    Utf8Field("keys", KeysValue(keys, [ObjectClose]));
  }

  lemma FromScannedIsUtf8(scanned: int, keys: Option<Entries<string>>)
    requires Utf8Tokens(FromKeys(keys))
    ensures Utf8Tokens(FromScanned(scanned, keys))
  {
    FieldNamesAreAscii();
    Utf8Field("scanned", Cons(Number(scanned), FromKeys(keys)));
  }

  lemma CountsValueIsUtf8(counts: Option<Entries<int>>, rest: seq<Token>)
    requires (counts.Some? ==> Utf8CountEntries(counts.value)) && Utf8Tokens(rest)
    ensures Utf8Tokens(CountsValue(counts, rest))
  {
    if counts.Some? {
      CountsAreUtf8(counts.value, rest);
    }
  }

  lemma FromCountsIsUtf8(b: Baseline, counts: Option<Entries<int>>, keys: Option<Entries<string>>)
    requires (counts.Some? ==> Utf8CountEntries(counts.value)) && Utf8Tokens(FromScanned(b.scanned, keys))
    ensures Utf8Tokens(FromCounts(b, counts, keys))
  {
    FieldNamesAreAscii();
    CountsValueIsUtf8(counts, FromScanned(b.scanned, keys));
    Utf8Field("counts", CountsValue(counts, FromScanned(b.scanned, keys)));
  }

  lemma FromChecksIsUtf8(b: Baseline, counts: Option<Entries<int>>, keys: Option<Entries<string>>)
    requires Utf8Names(b.checks) && Utf8Tokens(FromCounts(b, counts, keys))
    ensures Utf8Tokens(FromChecks(b, counts, keys))
  {
    FieldNamesAreAscii();
    NamesAreUtf8(b.checks, FromCounts(b, counts, keys));
    Utf8Cons(ListOpen, Names(b.checks, FromCounts(b, counts, keys)));
    Utf8Field("checks", Cons(ListOpen, Names(b.checks, FromCounts(b, counts, keys))));
  }

  lemma Utf8TextField(name: string, text: string, rest: seq<Token>)
    requires Ascii(name) && Utf8(text) && Utf8Tokens(rest)
    ensures Utf8Tokens(Cons(Text(name), Cons(Text(text), rest)))
  {
    Utf8Cons(Text(text), rest);
    Utf8Field(name, Cons(Text(text), rest));
  }

  lemma FromTakenAtIsUtf8(b: Baseline, counts: Option<Entries<int>>, keys: Option<Entries<string>>)
    requires Utf8(b.takenAt) && Utf8Tokens(FromChecks(b, counts, keys))
    ensures Utf8Tokens(FromTakenAt(b, counts, keys))
  {
    FieldNamesAreAscii();
    Utf8TextField("takenAt", b.takenAt, FromChecks(b, counts, keys));
  }

  lemma FromClusterIsUtf8(cluster: string, rest: seq<Token>)
    requires Utf8(cluster) && Utf8Tokens(rest)
    ensures Utf8Tokens(WithCluster(cluster, rest))
  {
    FieldNamesAreAscii();
    Utf8TextField("cluster", cluster, rest);
    Utf8Cons(ObjectOpen, if cluster == "" then rest else Cons(Text("cluster"), Cons(Text(cluster), rest)));
  }

  lemma LaidIsUtf8(b: Baseline, counts: Option<Entries<int>>, keys: Option<Entries<string>>)
    requires Utf8(b.cluster) && Utf8(b.takenAt) && Utf8Names(b.checks)
    requires (counts.Some? ==> Utf8CountEntries(counts.value)) && (keys.Some? ==> Utf8KeyEntries(keys.value))
    ensures Utf8Tokens(Laid(b, counts, keys))
  {
    FromKeysIsUtf8(keys);
    FromScannedIsUtf8(b.scanned, keys);
    FromCountsIsUtf8(b, counts, keys);
    FromChecksIsUtf8(b, counts, keys);
    FromTakenAtIsUtf8(b, counts, keys);
    FromClusterIsUtf8(b.cluster, FromTakenAt(b, counts, keys));
  }

  lemma NamesWireUtf8(names: seq<string>)
    ensures Utf8Names(WiredNames(names)) && (Utf8Names(names) ==> WiredNames(names) == names)
  {
    forall i | 0 <= i < |names| ensures Utf8(WiredNames(names)[i]) && (Utf8(names[i]) ==> WiredNames(names)[i] == names[i]) {
      WireIsUtf8(names[i]);
      WireKeepsIff(names[i]);
    }
  }

  lemma CountsWireUtf8(counts: Entries<int>)
    ensures Utf8CountEntries(WiredCounts(counts)) && (Utf8CountEntries(counts) ==> WiredCounts(counts) == counts)
  {
    forall i | 0 <= i < |counts| ensures Utf8(WiredCounts(counts)[i].0) && (Utf8(counts[i].0) ==> WiredCounts(counts)[i] == counts[i]) {
      WireIsUtf8(counts[i].0);
      WireKeepsIff(counts[i].0);
    }
  }

  lemma OneKeyWires(keys: Entries<string>, i: nat)
    requires i < |keys|
    ensures Utf8(WiredKeys(keys)[i].0) && Utf8(WiredKeys(keys)[i].1)
    ensures Utf8(keys[i].0) && Utf8(keys[i].1) ==> WiredKeys(keys)[i] == keys[i]
  {
    WireIsUtf8(keys[i].0);
    WireKeepsIff(keys[i].0);
    WireIsUtf8(keys[i].1);
    WireKeepsIff(keys[i].1);
  }

  lemma KeysWireUtf8(keys: Entries<string>)
    ensures Utf8KeyEntries(WiredKeys(keys)) && (Utf8KeyEntries(keys) ==> WiredKeys(keys) == keys)
  {
    forall i | 0 <= i < |keys|
      ensures Utf8(WiredKeys(keys)[i].0) && Utf8(WiredKeys(keys)[i].1)
      ensures Utf8(keys[i].0) && Utf8(keys[i].1) ==> WiredKeys(keys)[i] == keys[i]
    {
      OneKeyWires(keys, i);
    }
  }

  /** Whatever is written is UTF-8. */
  lemma WrittenIsUtf8(b: Baseline, counts: Option<Entries<int>>, keys: Option<Entries<string>>)
    ensures Utf8Tokens(Written(b, counts, keys))
  {
    WireIsUtf8(b.cluster);
    WireIsUtf8(b.takenAt);
    NamesWireUtf8(b.checks);
    if counts.Some? {
      CountsWireUtf8(counts.value);
    }
    if keys.Some? {
      KeysWireUtf8(keys.value);
    }
    LaidIsUtf8(Wired(b), IfSome(counts, WiredCounts), IfSome(keys, WiredKeys));
  }

  lemma SpelledUtf8(counts: Entries<int>, keys: Entries<string>)
    requires Unrepeated(counts) && Utf8Counts(FromEntries(counts)) && Unrepeated(keys) && Utf8Keys(FromEntries(keys))
    ensures Utf8CountEntries(counts) && Utf8KeyEntries(keys)
  {
    SpelledValues(counts);
    SpelledValues(keys);
  }

  /** UTF-8 is written as it is. */
  lemma Utf8IsLaid(b: Baseline, counts: Option<Entries<int>>, keys: Option<Entries<string>>)
    requires Utf8Texts(b) && SpellsMaybe(counts, b.counts) && SpellsMaybe(keys, b.keys)
    ensures Written(b, counts, keys) == Laid(b, counts, keys)
  {
    WireKeepsIff(b.cluster);
    WireKeepsIff(b.takenAt);
    NamesWireUtf8(b.checks);
    var countEntries := if counts.Some? then counts.value else [];
    var keyEntries := if keys.Some? then keys.value else [];
    SpelledUtf8(countEntries, keyEntries);
    CountsWireUtf8(countEntries);
    KeysWireUtf8(keyEntries);
  }

  // What is read from UTF-8 is UTF-8.

  lemma TextReadUtf8(tokens: seq<Token>)
    requires Utf8Tokens(tokens) && ReadText(tokens, "").Ok?
    ensures Utf8(ReadText(tokens, "").value.value) && Utf8Tokens(ReadText(tokens, "").value.rest)
  {
    assert Utf8Token(tokens[0]);
  }

  lemma {:induction false} NamesReadUtf8(tokens: seq<Token>, names: seq<string>)
    requires Utf8Tokens(tokens) && Utf8Names(names)
    ensures ReadNames(tokens, names).Ok? ==>
              Utf8Names(ReadNames(tokens, names).value.value) && Utf8Tokens(ReadNames(tokens, names).value.rest)
    decreases |tokens|
  {
    if More(tokens) && ReadText(tokens, "").Ok? {
      assert Utf8Token(tokens[0]);
      NamesReadUtf8(tokens[1..], names + [ReadText(tokens, "").value.value]);
    }
  }

  lemma {:induction false} CountsReadUtf8(tokens: seq<Token>, counts: Counts)
    requires Utf8Tokens(tokens) && Utf8Counts(counts)
    ensures ReadCountEntries(tokens, counts).Ok? ==>
              Utf8Counts(ReadCountEntries(tokens, counts).value.value) && Utf8Tokens(ReadCountEntries(tokens, counts).value.rest)
    decreases |tokens|
  {
    if More(tokens) && tokens[0].Text? && ReadNumber(tokens[1..], 0).Ok? {
      var one := ReadNumber(tokens[1..], 0).value;
      assert Utf8Token(tokens[0]);
      CountsReadUtf8(one.rest, counts[tokens[0].text := one.value]);
    }
  }

  lemma Utf8KeyAdded(keys: Keys, key: string, value: string)
    requires Utf8Keys(keys) && Utf8(key) && Utf8(value)
    ensures Utf8Keys(keys[key := value])
  {}

  lemma OneKeyRead(tokens: seq<Token>, keys: Keys, contentBytes: nat) returns (next: Keys, content: nat)
    requires Utf8Tokens(tokens) && Utf8Keys(keys) && More(tokens) && ReadKeyEntries(tokens, keys, contentBytes).Ok?
    ensures Utf8Keys(next) && |tokens| > 2
    ensures ReadKeyEntries(tokens, keys, contentBytes) == ReadKeyEntries(tokens[2..], next, content)
  {
    var one := ReadText(tokens[1..], "").value;
    next, content := keys[tokens[0].text := one.value], contentBytes + |tokens[0].text| + |one.value|;
    assert tokens[1..][1..] == tokens[2..];
    TextReadUtf8(tokens[1..]);
    assert Utf8Token(tokens[0]);
    Utf8KeyAdded(keys, tokens[0].text, one.value);
  }

  lemma {:induction false} KeysReadUtf8(tokens: seq<Token>, keys: Keys, contentBytes: nat)
    requires Utf8Tokens(tokens) && Utf8Keys(keys)
    ensures var read := ReadKeyEntries(tokens, keys, contentBytes);
            read.Ok? ==> Utf8Keys(read.value.value) && Utf8Tokens(read.value.rest)
    decreases |tokens|
  {
    if More(tokens) && ReadKeyEntries(tokens, keys, contentBytes).Ok? {
      var next, content := OneKeyRead(tokens, keys, contentBytes);
      KeysReadUtf8(tokens[2..], next, content);
    }
  }

  lemma FieldReadsUtf8(tokens: seq<Token>, held: Baseline, name: string)
    requires Utf8Tokens(tokens) && Utf8Texts(held)
    ensures var read := ReadField(tokens, held, name);
            read.Ok? ==> Utf8Texts(read.value.value) && Utf8Tokens(read.value.rest)
  {
    if tokens != [] {
      assert Utf8Token(tokens[0]);
      match Known(name)
      case Checks => NamesReadUtf8(tokens[1..], []);
      case CountsField => CountsReadUtf8(tokens[1..], map[]);
      case KeysField => KeysReadUtf8(tokens[1..], map[], 0);
      case _ =>
    }
  }

  lemma {:induction false} FieldsReadUtf8(tokens: seq<Token>, held: Baseline)
    requires Utf8Tokens(tokens) && Utf8Texts(held)
    ensures ReadFields(tokens, held).Ok? ==> Utf8Texts(ReadFields(tokens, held).value.value)
    decreases |tokens|
  {
    if More(tokens) && tokens[0].Text? && ReadField(tokens[1..], held, tokens[0].text).Ok? {
      var one := ReadField(tokens[1..], held, tokens[0].text).value;
      FieldReadsUtf8(tokens[1..], held, tokens[0].text);
      ReadsOn(tokens[1..], held, tokens[0].text);
      FieldsReadUtf8(one.rest, one.value);
    }
  }

  lemma StoredIsUtf8(tokens: seq<Token>)
    requires Utf8Tokens(tokens)
    ensures ReadStored(tokens).Ok? ==> Utf8Texts(ReadStored(tokens).value)
  {
    if tokens != [] {
      FieldsReadUtf8(tokens[1..], NOTHING);
    }
  }

  lemma WhatIsReadIsUtf8(b: Baseline, counts: Option<Entries<int>>, keys: Option<Entries<string>>)
    ensures var read := ReadStored(Written(b, counts, keys)); read.Ok? ==> Utf8Texts(read.value)
  {
    WrittenIsUtf8(b, counts, keys);
    StoredIsUtf8(Written(b, counts, keys));
  }

  /** A baseline comes back as it was exactly when all its text is UTF-8. */
  lemma WrittenReadsBack(b: Baseline, counts: Option<Entries<int>>, keys: Option<Entries<string>>)
    requires Storable(b) && GoNumbers(b) && SpellsMaybe(counts, b.counts) && SpellsMaybe(keys, b.keys)
    ensures ReadStored(Written(b, counts, keys)) == Ok(ReadBack(b)) <==> Utf8Texts(b)
    ensures var read := ReadStored(Written(b, counts, keys)); read.Ok? ==> Utf8Texts(read.value)
  {
    WhatIsReadIsUtf8(b, counts, keys);
    if Utf8Texts(b) {
      Utf8IsLaid(b, counts, keys);
      LaidReadsBack(b, counts, keys);
    }
  }

  // ---------------------------------------------------------------------------
  // Limits kept while reading
  // ---------------------------------------------------------------------------

  lemma {:induction false} NamesStayFew(tokens: seq<Token>, names: seq<string>)
    requires |names| <= MAX_CHECKS
    ensures ReadNames(tokens, names).Ok? ==> |ReadNames(tokens, names).value.value| <= MAX_CHECKS
    decreases |tokens|
  {
    if More(tokens) && |names| < MAX_CHECKS && ReadText(tokens, "").Ok? {
      NamesStayFew(tokens[1..], names + [ReadText(tokens, "").value.value]);
    }
  }

  lemma {:induction false} CountsStayFew(tokens: seq<Token>, counts: Counts)
    requires |counts| <= MAX_COUNTS
    ensures ReadCountEntries(tokens, counts).Ok? ==> |ReadCountEntries(tokens, counts).value.value| <= MAX_COUNTS
    decreases |tokens|
  {
    if More(tokens) && |counts| < MAX_COUNTS && tokens[0].Text? && ReadNumber(tokens[1..], 0).Ok? {
      var one := ReadNumber(tokens[1..], 0).value;
      AddedSize(counts, tokens[0].text, one.value);
      CountsStayFew(one.rest, counts[tokens[0].text := one.value]);
    }
  }

  lemma {:induction false} KeysStayFew(tokens: seq<Token>, keys: Keys, contentBytes: nat)
    requires |keys| <= MAX_KEYS && Content(keys) <= contentBytes <= MAX_CONTENT
    ensures var read := ReadKeyEntries(tokens, keys, contentBytes);
            read.Ok? ==> |read.value.value| <= MAX_KEYS && Content(read.value.value) <= MAX_CONTENT
    decreases |tokens|
  {
    if More(tokens) && |keys| < MAX_KEYS && tokens[0].Text? && ReadText(tokens[1..], "").Ok? {
      var one := ReadText(tokens[1..], "").value;
      var content := contentBytes + |tokens[0].text| + |one.value|;
      if content <= MAX_CONTENT {
        AddedSize(keys, tokens[0].text, one.value);
        ContentWith(keys, tokens[0].text, one.value);
        KeysStayFew(one.rest, keys[tokens[0].text := one.value], content);
      }
    }
  }

  lemma FieldStaysWithin(tokens: seq<Token>, held: Baseline, name: string)
    requires WithinLimits(held)
    ensures ReadField(tokens, held, name).Ok? ==> WithinLimits(ReadField(tokens, held, name).value.value)
  {
    if tokens != [] {
      match Known(name)
      case Checks => NamesStayFew(tokens[1..], []);
      case CountsField => CountsStayFew(tokens[1..], map[]);
      case KeysField => KeysStayFew(tokens[1..], map[], 0);
      case _ =>
    }
  }

  lemma {:induction false} FieldsStayWithin(tokens: seq<Token>, held: Baseline)
    requires WithinLimits(held)
    ensures ReadFields(tokens, held).Ok? ==> WithinLimits(ReadFields(tokens, held).value.value)
    decreases |tokens|
  {
    if More(tokens) && tokens[0].Text? && ReadField(tokens[1..], held, tokens[0].text).Ok? {
      var one := ReadField(tokens[1..], held, tokens[0].text).value;
      FieldStaysWithin(tokens[1..], held, tokens[0].text);
      ReadsOn(tokens[1..], held, tokens[0].text);
      FieldsStayWithin(one.rest, one.value);
    }
  }

  /** Whatever the tokens, what is read keeps every limit before it is ever validated; all that
      can be missing is the day it was taken and the checks. */
  lemma ReadingKeepsTheLimits(tokens: seq<Token>)
    requires ReadStored(tokens).Ok?
    ensures WithinLimits(ReadStored(tokens).value)
  {
    FieldsStayWithin(tokens[1..], NOTHING);
  }

  // ---------------------------------------------------------------------------
  // Nothing behind, nothing unknown
  // ---------------------------------------------------------------------------

  /** Reading goes on the same when there is more behind. */
  predicate SameWithMore<T(==)>(read: Read<T>, longer: Read<T>, more: seq<Token>) {
    read.Ok? ==> longer == Ok(Parsed(read.value.value, read.value.rest + more))
  }

  lemma {:induction false} NamesWithMore(tokens: seq<Token>, names: seq<string>, more: seq<Token>)
    ensures SameWithMore(ReadNames(tokens, names), ReadNames(tokens + more, names), more)
    decreases |tokens|
  {
    if tokens != [] {
      assert (tokens + more)[1..] == tokens[1..] + more;
      if More(tokens) && ReadText(tokens, "").Ok? {
        NamesWithMore(tokens[1..], names + [ReadText(tokens, "").value.value], more);
      }
    }
  }

  lemma {:induction false} CountsWithMore(tokens: seq<Token>, counts: Counts, more: seq<Token>)
    ensures SameWithMore(ReadCountEntries(tokens, counts), ReadCountEntries(tokens + more, counts), more)
    decreases |tokens|
  {
    if tokens != [] {
      assert (tokens + more)[1..] == tokens[1..] + more;
      if More(tokens) && tokens[0].Text? && ReadNumber(tokens[1..], 0).Ok? {
        assert (tokens[1..] + more)[1..] == tokens[1..][1..] + more;
        var one := ReadNumber(tokens[1..], 0).value;
        CountsWithMore(one.rest, counts[tokens[0].text := one.value], more);
      }
    }
  }

  lemma {:induction false} KeysWithMore(tokens: seq<Token>, keys: Keys, contentBytes: nat, more: seq<Token>)
    ensures SameWithMore(ReadKeyEntries(tokens, keys, contentBytes), ReadKeyEntries(tokens + more, keys, contentBytes), more)
    decreases |tokens|
  {
    if tokens != [] {
      assert (tokens + more)[1..] == tokens[1..] + more;
      if More(tokens) && tokens[0].Text? && ReadText(tokens[1..], "").Ok? {
        assert (tokens[1..] + more)[1..] == tokens[1..][1..] + more;
        var one := ReadText(tokens[1..], "").value;
        KeysWithMore(one.rest, keys[tokens[0].text := one.value], contentBytes + |tokens[0].text| + |one.value|, more);
      }
    }
  }

  lemma FieldWithMore(tokens: seq<Token>, held: Baseline, name: string, more: seq<Token>)
    ensures SameWithMore(ReadField(tokens, held, name), ReadField(tokens + more, held, name), more)
  {
    if tokens != [] {
      assert (tokens + more)[1..] == tokens[1..] + more;
      match Known(name)
      case Checks => NamesWithMore(tokens[1..], [], more);
      case CountsField => CountsWithMore(tokens[1..], map[], more);
      case KeysField => KeysWithMore(tokens[1..], map[], 0, more);
      case _ =>
    }
  }

  lemma {:induction false} FieldsWithMore(tokens: seq<Token>, held: Baseline, more: seq<Token>)
    ensures SameWithMore(ReadFields(tokens, held), ReadFields(tokens + more, held), more)
    decreases |tokens|
  {
    if tokens != [] {
      assert (tokens + more)[1..] == tokens[1..] + more;
      if More(tokens) && tokens[0].Text? && ReadField(tokens[1..], held, tokens[0].text).Ok? {
        var one := ReadField(tokens[1..], held, tokens[0].text).value;
        FieldWithMore(tokens[1..], held, tokens[0].text, more);
        ReadsOn(tokens[1..], held, tokens[0].text);
        FieldsWithMore(one.rest, one.value, more);
      }
    }
  }

  /** A baseline with anything behind it is refused. */
  lemma TrailingIsRefused(tokens: seq<Token>, more: seq<Token>)
    requires ReadStored(tokens).Ok? && more != []
    ensures ReadStored(tokens + more) == Err(Trailing)
  {
    assert (tokens + more)[1..] == tokens[1..] + more;
    FieldsWithMore(tokens[1..], NOTHING, more);
  }

  /** Whole fields, one after another. */
  predicate WholeFields(tokens: seq<Token>, held: Baseline)
    decreases |tokens|
  {
    tokens == [] ||
    (tokens[0].Text? &&
     var read := ReadField(tokens[1..], held, tokens[0].text);
     read.Ok? && |read.value.rest| < |tokens| && WholeFields(read.value.rest, read.value.value))
  }

  /** A field nobody knows is refused wherever it comes among fields that read. */
  lemma UnknownIsRefused(before: seq<Token>, name: string, after: seq<Token>)
    requires WholeFields(before, NOTHING) && Known(name) == Unknown
    ensures ReadStored(Cons(ObjectOpen, before + Cons(Text(name), after))) == Err(UnknownField(name))
  {
    StopsAtUnknown(before, NOTHING, name, after);
  }

  lemma {:induction false} StopsAtUnknown(before: seq<Token>, held: Baseline, name: string, after: seq<Token>)
    requires WholeFields(before, held) && Known(name) == Unknown
    ensures ReadFields(before + Cons(Text(name), after), held) == Err(UnknownField(name))
    decreases |before|
  {
    var more := Cons(Text(name), after);
    if before == [] {
      assert before + more == more;
    } else {
      var read := ReadField(before[1..], held, before[0].text).value;
      assert (before + more)[1..] == before[1..] + more;
      FieldWithMore(before[1..], held, before[0].text, more);
      StopsAtUnknown(read.rest, read.value, name, after);
    }
  }

  // ---------------------------------------------------------------------------
  // Encoding and decoding
  // ---------------------------------------------------------------------------

  /** A method read what the specification reads, and left what it leaves. */
  predicate Reads<T(==)>(r: Result<T, Refusal>, after: seq<Token>, spec: Read<T>) {
    match spec
    case Ok(read) => r == Ok(read.value) && after == read.rest
    case Err(error) => r == Err(error)
  }

  class Decoder {
    var tokens: seq<Token>

    constructor (body: seq<Token>)
      ensures tokens == body
    {
      tokens := body;
    }

    method Next() returns (token: Option<Token>)
      modifies this
      ensures if old(tokens) == [] then token == None && tokens == []
              else token == Some(old(tokens)[0]) && tokens == old(tokens)[1..]
    {
      if tokens == [] {
        return None;
      }
      token := Some(tokens[0]);
      tokens := tokens[1..];
    }

    method DecodeText(was: string) returns (r: Result<string, Refusal>)
      modifies this
      ensures Reads(r, tokens, ReadText(old(tokens), was))
    {
      var token := Next();
      match token
      case Some(Text(text)) => return Ok(text);
      case Some(Null) => return Ok(was);
      case _ => return Err(Malformed);
    }

    method DecodeNumber(was: int) returns (r: Result<int, Refusal>)
      modifies this
      ensures Reads(r, tokens, ReadNumber(old(tokens), was))
    {
      var token := Next();
      match token
      case Some(Number(number)) => if Int64(number) { return Ok(number); } return Err(Malformed);
      case Some(Null) => return Ok(was);
      case _ => return Err(Malformed);
    }

    /** The closing token is read, and has to be the right one. */
    method Close<T(==)>(close: Token, value: T) returns (r: Result<T, Refusal>)
      modifies this
      ensures Reads(r, tokens, Closed(old(tokens), close, value))
    {
      var token := Next();
      if token == Some(close) {
        return Ok(value);
      }
      return Err(Malformed);
    }

    method DecodeChecks() returns (r: Result<seq<string>, Refusal>)
      modifies this
      ensures Reads(r, tokens, ReadChecks(old(tokens)))
    {
      ghost var spec := ReadChecks(tokens);
      var opening := Next();
      if opening.None? {
        return Err(Malformed);
      }
      if opening.value != ListOpen {
        return Err(NotAList);
      }
      var names: seq<string> := [];
      while More(tokens)
        invariant ReadNames(tokens, names) == spec
        decreases |tokens|
      {
        if |names| == MAX_CHECKS {
          return Err(TooManyChecks);
        }
        var check := DecodeText("");
        if check.Err? {
          return Err(check.error);
        }
        names := names + [check.value];
      }
      r := Close(ListClose, names);
    }

    method DecodeCounts() returns (r: Result<Option<Counts>, Refusal>)
      modifies this
      ensures Reads(r, tokens, ReadCounts(old(tokens)))
    {
      ghost var before := tokens;
      var opening := Next();
      if opening.None? {
        return Err(Malformed);
      }
      if opening.value == Null {
        return Ok(Some(map[]));
      }
      if opening.value != ObjectOpen {
        return Err(NotAnObject);
      }
      var read := DecodeCountEntries();
      if read.Err? {
        return Err(read.error);
      }
      return Ok(Some(read.value));
    }

    method DecodeCountEntries() returns (r: Result<Counts, Refusal>)
      modifies this
      ensures Reads(r, tokens, ReadCountEntries(old(tokens), map[]))
    {
      ghost var spec := ReadCountEntries(tokens, map[]);
      var counts: Counts := map[];
      while More(tokens)
        invariant ReadCountEntries(tokens, counts) == spec
        decreases |tokens|
      {
        if |counts| == MAX_COUNTS {
          return Err(TooManyCounts);
        }
        var check := Next();
        if !check.value.Text? {
          return Err(Malformed);
        }
        var count := DecodeNumber(0);
        if count.Err? {
          return Err(count.error);
        }
        counts := counts[check.value.text := count.value];
      }
      r := Close(ObjectClose, counts);
    }

    method DecodeKeys() returns (r: Result<Option<Keys>, Refusal>)
      modifies this
      ensures Reads(r, tokens, ReadKeys(old(tokens)))
    {
      var opening := Next();
      if opening.None? {
        return Err(Malformed);
      }
      if opening.value == Null {
        return Ok(Some(map[]));
      }
      if opening.value != ObjectOpen {
        return Err(NotAnObject);
      }
      var read := DecodeKeyEntries();
      if read.Err? {
        return Err(read.error);
      }
      return Ok(Some(read.value));
    }

    method DecodeKeyEntries() returns (r: Result<Keys, Refusal>)
      modifies this
      ensures Reads(r, tokens, ReadKeyEntries(old(tokens), map[], 0))
    {
      ghost var spec := ReadKeyEntries(tokens, map[], 0);
      var keys: Keys := map[];
      var contentBytes: nat := 0;
      while More(tokens)
        invariant ReadKeyEntries(tokens, keys, contentBytes) == spec
        decreases |tokens|
      {
        if |keys| == MAX_KEYS {
          return Err(TooManyKeys);
        }
        var key := Next();
        if !key.value.Text? {
          return Err(Malformed);
        }
        var value := DecodeText("");
        if value.Err? {
          return Err(value.error);
        }
        contentBytes := contentBytes + |key.value.text| + |value.value|;
        if contentBytes > MAX_CONTENT {
          return Err(TooMuchContent);
        }
        keys := keys[key.value.text := value.value];
      }
      r := Close(ObjectClose, keys);
    }

    method DecodeStoredField(held: Baseline, name: string) returns (r: Result<Baseline, Refusal>)
      modifies this
      ensures Reads(r, tokens, ReadField(old(tokens), held, name))
    {
      match Known(name)
      case Cluster =>
        var text := DecodeText(held.cluster);
        return if text.Ok? then Ok(held.(cluster := text.value)) else Err(text.error);
      case TakenAt =>
        var text := DecodeText(held.takenAt);
        return if text.Ok? then Ok(held.(takenAt := text.value)) else Err(text.error);
      case Checks =>
        var checks := DecodeChecks();
        return if checks.Ok? then Ok(held.(checks := checks.value)) else Err(checks.error);
      case CountsField =>
        var counts := DecodeCounts();
        return if counts.Ok? then Ok(held.(counts := counts.value)) else Err(counts.error);
      case Scanned =>
        var number := DecodeNumber(held.scanned);
        return if number.Ok? then Ok(held.(scanned := number.value)) else Err(number.error);
      case KeysField =>
        var keys := DecodeKeys();
        return if keys.Ok? then Ok(held.(keys := keys.value)) else Err(keys.error);
      case Unknown => return Err(UnknownField(name));
    }

    method DecodeFields() returns (r: Result<Baseline, Refusal>)
      modifies this
      ensures Reads(r, tokens, ReadFields(old(tokens), NOTHING))
    {
      ghost var spec := ReadFields(tokens, NOTHING);
      var held := NOTHING;
      while More(tokens)
        invariant ReadFields(tokens, held) == spec
        decreases |tokens|
      {
        var field := Next();
        if !field.value.Text? {
          return Err(Malformed);
        }
        ReadsOn(tokens, held, field.value.text);
        var read := DecodeStoredField(held, field.value.text);
        if read.Err? {
          return Err(read.error);
        }
        held := read.value;
      }
      r := Close(ObjectClose, held);
    }

    method DecodeStored() returns (r: Result<Baseline, Refusal>)
      modifies this
      ensures r == ReadStored(old(tokens))
    {
      var opening := Next();
      if opening.None? {
        return Err(Malformed);
      }
      if opening.value != ObjectOpen {
        return Err(NotAnObject);
      }
      var held := DecodeFields();
      if held.Err? {
        return Err(held.error);
      }
      if tokens != [] {
        return Err(Trailing);
      }
      return held;
    }
  }

  /** How many bytes the encoder makes of a token stream. */
  type Size = seq<Token> -> nat

  /** What decoding gives: nothing over the size, nothing that does not read, nothing that names
      no checks; and whatever comes back keeps every limit. */
  method Decode(size: Size, body: seq<Token>) returns (r: Result<Baseline, Refusal>)
    ensures r.Ok? <==> size(body) <= MAX_BYTES && ReadStored(body).Ok? && ReadStored(body).value.takenAt != "" && ReadStored(body).value.checks != []
    ensures r.Ok? ==> r.value == AsBaseline(ReadStored(body).value) && Storable(r.value) && r.value.keys.Some?
    ensures r.Err? && size(body) <= MAX_BYTES ==> r.error == if ReadStored(body).Err? then ReadStored(body).error else NamesNothing
  {
    if size(body) > MAX_BYTES {
      return Err(TooBig);
    }
    var decoder := new Decoder(body);
    var held := decoder.DecodeStored();
    if held.Err? {
      return Err(held.error);
    }
    ReadingKeepsTheLimits(body);
    var taken := AsBaseline(held.value);
    var fault := Validate(taken);
    if fault.Some? {
      return Err(fault.value);
    }
    return Ok(taken);
  }

  lemma SpellsOneMore<V>(entries: Entries<V>, held: map<string, V>, key: string, value: V)
    requires Spells(entries, held) && key !in held
    ensures Spells(entries + [(key, value)], held[key := value])
  {
    EntriesBound(entries);
    OneMoreEntry(entries, (key, value));
  }

  /** The entries of a map in some order. */
  method ListEntries<V(==)>(held: map<string, V>) returns (entries: Entries<V>)
    ensures Spells(entries, held)
  {
    entries := [];
    var left := held.Keys;
    ghost var done: map<string, V> := map[];
    while left != {}
      invariant left <= held.Keys && done == (map key | key in held && key !in left :: held[key])
      invariant Spells(entries, done)
      decreases left
    {
      var key :| key in left;
      SpellsOneMore(entries, done, key, held[key]);
      entries := entries + [(key, held[key])];
      done := done[key := held[key]];
      left := left - {key};
    }
    assert done == held;
  }

  /** What Encode accepts is written out in full. */
  method Encode(size: Size, b: Baseline) returns (r: Result<seq<Token>, Refusal>, ghost counts: Option<Entries<int>>, ghost keys: Option<Entries<string>>)
    ensures r.Ok? ==> Storable(b) && SpellsMaybe(counts, b.counts) && SpellsMaybe(keys, b.keys)
    ensures r.Ok? ==> r.value == Written(b, counts, keys) && size(r.value) <= MAX_BYTES
    ensures r.Err? ==> !Storable(b) || r.error == TooBig
  {
    counts, keys := None, None;
    var fault := Validate(b);
    if fault.Some? {
      return Err(fault.value), counts, keys;
    }
    var countEntries, keyEntries := None, None;
    if b.counts.Some? {
      var entries := ListEntries(b.counts.value);
      countEntries := Some(entries);
    }
    if b.keys.Some? {
      var entries := ListEntries(b.keys.value);
      keyEntries := Some(entries);
    }
    var body := Written(b, countEntries, keyEntries);
    if size(body) > MAX_BYTES {
      return Err(TooBig), countEntries, keyEntries;
    }
    return Ok(body), countEntries, keyEntries;
  }

  /** Saving and loading: what is accepted comes back, its nil maps empty, exactly when its text is
      UTF-8. */
  method SaveAndLoad(size: Size, b: Baseline) returns (saved: bool, loaded: Result<Baseline, Refusal>)
    requires GoNumbers(b)
    ensures saved ==> (loaded == Ok(ReadBack(b)) <==> Utf8Texts(b))
    ensures !saved ==> loaded.Err?
  {
    var body, counts, keys := Encode(size, b);
    if body.Err? {
      return false, Err(body.error);
    }
    WrittenReadsBack(b, counts, keys);
    loaded := Decode(size, body.value);
    saved := true;
  }
}
