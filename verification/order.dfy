/** The order Go's `<` and `strings.Compare` put on strings: character by character, a prefix
    first. For valid UTF-8 this is also the order of the bytes. The standard library's sort of
    strings is modelled by insertion, since only its result matters here: the same strings, in
    order. */
module Order {
  predicate Below(a: string, b: string)
    decreases |a|
  {
    b != [] && (a == [] || a[0] < b[0] || (a[0] == b[0] && Below(a[1..], b[1..])))
  }

  /** Two texts agree up to a place. */
  predicate AgreeTo(a: string, b: string, k: nat) {
    k <= |a| && k <= |b| && a[..k] == b[..k]
  }

  lemma AgreeAtFirst(a: string, b: string, k: nat)
    requires AgreeTo(a, b, k) && k > 0
    ensures a[0] == b[0]
  {
    assert a[0] == a[..k][0] && b[0] == b[..k][0];
  }

  /** One is below the other exactly when it ends where they differ first, or is less there. */
  lemma {:induction false} BelowIff(a: string, b: string)
    ensures Below(a, b) <==> exists k: nat :: AgreeTo(a, b, k) && k < |b| && (k == |a| || a[k] < b[k])
    decreases |a|
  {
    if a != [] && b != [] && a[0] == b[0] {
      BelowIff(a[1..], b[1..]);
      if Below(a, b) {
        var k: nat :| AgreeTo(a[1..], b[1..], k) && k < |b[1..]| && (k == |a[1..]| || a[1..][k] < b[1..][k]);
        assert a[..k + 1] == [a[0]] + a[1..][..k] && b[..k + 1] == [b[0]] + b[1..][..k];
        assert AgreeTo(a, b, k + 1);
      }
      if k: nat :| AgreeTo(a, b, k) && k < |b| && (k == |a| || a[k] < b[k]) {
        assert a[1..][..k - 1] == a[..k][1..] && b[1..][..k - 1] == b[..k][1..];
        assert AgreeTo(a[1..], b[1..], k - 1);
      }
    } else if a != [] && b != [] {
      if k: nat :| AgreeTo(a, b, k) && k > 0 {
        AgreeAtFirst(a, b, k);
      }
      assert AgreeTo(a, b, 0);
    } else {
      assert AgreeTo(a, b, 0);
    }
  }

  lemma {:induction false} BelowTotal(a: string, b: string)
    ensures Below(a, b) || a == b || Below(b, a)
    decreases |a|
  {
    if a != [] && b != [] && a[0] == b[0] {
      BelowTotal(a[1..], b[1..]);
      assert a == [a[0]] + a[1..] && b == [b[0]] + b[1..];
    }
  }

  lemma {:induction false} BelowTransitive(a: string, b: string, c: string)
    requires Below(a, b) && Below(b, c)
    ensures Below(a, c)
    decreases |a|
  {
    if a != [] && a[0] == b[0] == c[0] {
      BelowTransitive(a[1..], b[1..], c[1..]);
    }
  }

  lemma {:induction false} BelowIrreflexive(a: string, b: string)
    requires Below(a, b)
    ensures a != b && !Below(b, a)
    decreases |a|
  {
    if a != [] && a[0] == b[0] {
      BelowIrreflexive(a[1..], b[1..]);
    }
  }

  /** A text is split in one way only at the first of a mark. */
  lemma SplitsAtTheFirst(front: string, back: string, front': string, back': string, mark: char)
    requires mark !in front && mark !in front' && front + [mark] + back == front' + [mark] + back'
    ensures front == front' && back == back'
  {
    var text := front + [mark] + back;
    assert text[|front|] == mark && text[|front'|] == mark;
    assert forall i | 0 <= i < |front| :: text[i] == front[i];
    assert forall i | 0 <= i < |front'| :: text[i] == front'[i];
    assert |front| == |front'|;
    assert text[..|front|] == front && text[..|front'|] == front';
    assert text[|front| + 1..] == back && text[|front'| + 1..] == back';
  }

  // ---------------------------------------------------------------------------
  // The standard library's sort of strings
  // ---------------------------------------------------------------------------

  function Insert(one: string, sorted: seq<string>): seq<string> {
    if sorted == [] || !Below(sorted[0], one) then [one] + sorted else [sorted[0]] + Insert(one, sorted[1..])
  }

  function Sorted(all: seq<string>): seq<string> {
    if all == [] then [] else Insert(all[0], Sorted(all[1..]))
  }

  predicate Ascending(all: seq<string>) {
    forall i, j | 0 <= i < j < |all| :: Below(all[i], all[j])
  }

  predicate Unrepeated(all: seq<string>) {
    forall i, j | 0 <= i < j < |all| :: all[i] != all[j]
  }

  lemma {:induction false} InsertHolds(one: string, sorted: seq<string>, what: string)
    ensures what in Insert(one, sorted) <==> what == one || what in sorted
  {
    if sorted != [] && Below(sorted[0], one) {
      InsertHolds(one, sorted[1..], what);
    }
  }

  lemma {:induction false} SortedHolds(all: seq<string>, what: string)
    ensures what in Sorted(all) <==> what in all
  {
    if all != [] {
      SortedHolds(all[1..], what);
      InsertHolds(all[0], Sorted(all[1..]), what);
    }
  }

  lemma {:induction false} InsertAscending(one: string, sorted: seq<string>)
    requires Ascending(sorted) && one !in sorted
    ensures Ascending(Insert(one, sorted))
  {
    if sorted != [] {
      BelowTotal(one, sorted[0]);
      if Below(sorted[0], one) {
        InsertAscending(one, sorted[1..]);
        forall what | what in Insert(one, sorted[1..]) ensures Below(sorted[0], what) {
          InsertHolds(one, sorted[1..], what);
        }
      } else {
        forall i | 0 < i < |sorted| { BelowTransitive(one, sorted[0], sorted[i]); }
      }
    }
  }

  /** Strings without repeats come out strictly ascending. */
  lemma {:induction false} SortedAscending(all: seq<string>)
    requires Unrepeated(all)
    ensures Ascending(Sorted(all))
  {
    if all != [] {
      SortedAscending(all[1..]);
      SortedHolds(all[1..], all[0]);
      InsertAscending(all[0], Sorted(all[1..]));
    }
  }
}
