/** Which names the objects of a cluster mention (internal/checks/corpus.go and subject.go), and
    the orphans nothing mentions (internal/checks/refs.go). Some kinds are listed and held, others
    are scanned at once and only counted; the count must not depend on which. */
module Corpus {
  import opened Options
  import opened Objects

  // ---------------------------------------------------------------------------
  // What counts as a mention
  // ---------------------------------------------------------------------------

  /** Somewhere in this tree a text is exactly the name; keys of objects do not count. */
  predicate HasLeaf(value: Value, name: string) {
    match value
    case Str(text) => text == name
    case Obj(fields) => exists key | key in fields :: HasLeaf(fields[key], name)
    case List(items) => exists i | 0 <= i < |items| :: HasLeaf(items[i], name)
    case _ => false
  }

  /** One step down a tree. */
  datatype Way = Field(key: string) | Item(index: nat)

  function Down(value: Value, path: seq<Way>): Option<Value>
    decreases |path|
  {
    if path == [] then Some(value)
    else match (value, path[0])
      case (Obj(fields), Field(key)) => if key in fields then Down(fields[key], path[1..]) else None
      case (List(items), Item(index)) => if index < |items| then Down(items[index], path[1..]) else None
      case _ => None
  }

  lemma {:induction false} LeafIsDown(value: Value, name: string) returns (path: seq<Way>)
    requires HasLeaf(value, name)
    ensures Down(value, path) == Some(Str(name))
    decreases value
  {
    match value
    case Str(_) => path := [];
    case Obj(fields) =>
      var key :| key in fields && HasLeaf(fields[key], name);
      var rest := LeafIsDown(fields[key], name);
      path := [Field(key)] + rest;
      assert path[1..] == rest;
    case List(items) =>
      var i: nat :| i < |items| && HasLeaf(items[i], name);
      var rest := LeafIsDown(items[i], name);
      path := [Item(i)] + rest;
      assert path[1..] == rest;
  }

  lemma {:induction false} DownIsLeaf(value: Value, name: string, path: seq<Way>)
    requires Down(value, path) == Some(Str(name))
    ensures HasLeaf(value, name)
    decreases |path|
  {
    if path != [] {
      match (value, path[0])
      case (Obj(fields), Field(key)) => DownIsLeaf(fields[key], name, path[1..]);
      case (List(items), Item(index)) => DownIsLeaf(items[index], name, path[1..]);
    }
  }

  /** A name is held exactly when some way down the tree, through fields and items to any depth, ends
      at just that text. */
  lemma HasLeafIff(value: Value, name: string)
    ensures HasLeaf(value, name) <==> exists path :: Down(value, path) == Some(Str(name))
  {
    if HasLeaf(value, name) {
      var path := LeafIsDown(value, name);
    }
    if path :| Down(value, path) == Some(Str(name)) {
      DownIsLeaf(value, name, path);
    }
  }

  function Name(root: Value): string {
    MetadataText(root, "name")
  }

  /** An object mentions a name that is not its own. */
  predicate Mentions(root: Value, name: string) {
    Name(root) != name && HasLeaf(root, name)
  }

  /** How many of these objects mention a name. */
  function Mentioning(items: seq<Value>, name: string): nat {
    if items == [] then 0 else Mentioning(items[..|items| - 1], name) + if Mentions(items[|items| - 1], name) then 1 else 0
  }

  lemma {:induction false} MentioningAll(a: seq<Value>, b: seq<Value>, name: string)
    ensures Mentioning(a + b, name) == Mentioning(a, name) + Mentioning(b, name)
  {
    if b == [] {
      assert a + b == a;
    } else {
      var front := b[..|b| - 1];
      MentioningAll(a, front, name);
      assert (a + b)[..|a + b| - 1] == a + front;
    }
  }

  /** A name is mentioned nowhere exactly when no object but its own holds it. */
  lemma {:induction false} NoneMentions(items: seq<Value>, name: string)
    ensures Mentioning(items, name) == 0 <==> forall i | 0 <= i < |items| :: !Mentions(items[i], name)
    ensures Mentioning(items, name) == 0 <==>
            forall i | 0 <= i < |items| && HasLeaf(items[i], name) :: MetadataText(items[i], "name") == name
  {
    if items != [] {
      var front := items[..|items| - 1];
      NoneMentions(front, name);
      assert forall i | 0 <= i < |front| :: front[i] == items[i];
    }
  }

  // ---------------------------------------------------------------------------
  // Gathering
  // ---------------------------------------------------------------------------

  class Strings {
    var held: set<string>

    constructor ()
      ensures held == {}
    {
      held := {};
    }

    method Clear()
      modifies this
      ensures held == {}
    {
      held := {};
    }
  }

  ghost predicate Gathered(before: set<string>, value: Value, after: set<string>) {
    forall name :: name in after <==> name in before || HasLeaf(value, name)
  }

  method GatherStrings(value: Value, into: Strings)
    modifies into
    ensures Gathered(old(into.held), value, into.held)
    decreases value
  {
    ghost var before := into.held;
    match value
    case Str(text) => into.held := into.held + {text};
    case Obj(fields) =>
      var keys := fields.Keys;
      while keys != {}
        invariant keys <= fields.Keys
        invariant forall name :: name in into.held <==>
          name in before || exists key | key in fields && key !in keys :: HasLeaf(fields[key], name)
        decreases keys
      {
        var key :| key in keys;
        GatherStrings(fields[key], into);
        keys := keys - {key};
      }
    case List(items) =>
      for i := 0 to |items|
        invariant forall name :: name in into.held <==>
          name in before || exists j | 0 <= j < i :: HasLeaf(items[j], name)
      {
        GatherStrings(items[i], into);
      }
    case _ =>
  }

  function Seen(counts: map<string, nat>, name: string): nat {
    if name in counts then counts[name] else 0
  }

  ghost predicate CountsMentions(counts: map<string, nat>, items: seq<Value>) {
    forall name :: Seen(counts, name) == Mentioning(items, name)
  }

  /** One more for every name an object holds. */
  method CountEach(counts: map<string, nat>, here: set<string>) returns (more: map<string, nat>)
    ensures forall name :: Seen(more, name) == Seen(counts, name) + if name in here then 1 else 0
  {
    more := counts;
    var names := here;
    while names != {}
      invariant names <= here
      invariant forall name :: Seen(more, name) == Seen(counts, name) + if name in here && name !in names then 1 else 0
      decreases names
    {
      var name :| name in names;
      more := more[name := Seen(more, name) + 1];
      names := names - {name};
    }
  }

  /** `mentionedStrings` and `countMentions` are one loop. */
  method CountMentions(items: seq<Value>) returns (counts: map<string, nat>)
    ensures CountsMentions(counts, items)
  {
    counts := map[];
    var here := new Strings();
    for i := 0 to |items|
      invariant fresh(here)
      invariant CountsMentions(counts, items[..i])
    {
      here.Clear();
      GatherStrings(items[i], here);
      here.held := here.held - {Name(items[i])};
      assert forall name :: name in here.held <==> Mentions(items[i], name);
      assert items[..i + 1][..i] == items[..i];
      counts := CountEach(counts, here.held);
    }
    assert items[..|items|] == items;
  }

  // ---------------------------------------------------------------------------
  // Kinds scanned at once
  // ---------------------------------------------------------------------------

  /** What scanning a kind gives: its objects, or an error. */
  type Reply = Result<seq<Value>, string>

  function ItemsOf(reply: Reply): seq<Value> {
    if reply.Ok? then reply.value else []
  }

  /** All objects that could be read, kind after kind. */
  function Read(replies: seq<Reply>): seq<Value> {
    if replies == [] then [] else Read(replies[..|replies| - 1]) + ItemsOf(replies[|replies| - 1])
  }

  /** Mentions among the kinds that are done. */
  function MentioningIn(replies: seq<Reply>, done: set<nat>, name: string): nat {
    if replies == [] then 0
    else
      MentioningIn(replies[..|replies| - 1], done, name) +
      if |replies| - 1 in done then Mentioning(ItemsOf(replies[|replies| - 1]), name) else 0
  }

  lemma {:induction false} OneMoreDone(replies: seq<Reply>, done: set<nat>, i: nat, name: string)
    requires i !in done
    ensures MentioningIn(replies, done + {i}, name) ==
            MentioningIn(replies, done, name) + if i < |replies| then Mentioning(ItemsOf(replies[i]), name) else 0
  {
    if replies != [] {
      OneMoreDone(replies[..|replies| - 1], done, i, name);
    }
  }

  lemma {:induction false} AllDone(replies: seq<Reply>, done: set<nat>, name: string)
    requires forall i: nat | i < |replies| :: i in done
    ensures MentioningIn(replies, done, name) == Mentioning(Read(replies), name)
  {
    if replies != [] {
      var front := replies[..|replies| - 1];
      AllDone(front, done, name);
      MentioningAll(Read(front), ItemsOf(replies[|replies| - 1]), name);
    }
  }

  lemma {:induction false} NoneDone(replies: seq<Reply>, name: string)
    ensures MentioningIn(replies, {}, name) == 0
  {
    if replies != [] {
      NoneDone(replies[..|replies| - 1], name);
    }
  }

  /** What the scanning goroutines share, under one lock. */
  class Scanned {
    var counts: map<string, nat>
    var refused: set<nat>
    ghost var done: set<nat>

    ghost predicate Valid(replies: seq<Reply>)
      reads this
    {
      (forall name :: Seen(counts, name) == MentioningIn(replies, done, name)) &&
      (forall i | i in done :: i < |replies|) &&
      (forall i: nat | i < |replies| :: i in refused <==> i in done && replies[i].Err?)
    }

    constructor (ghost replies: seq<Reply>)
      ensures Valid(replies) && done == {}
    {
      counts, refused, done := map[], {}, {};
      new;
      forall name { NoneDone(replies, name); }
    }

    /** One kind is through: its counts go in, or its refusal does. */
    method Finish(replies: seq<Reply>, i: nat)
      requires Valid(replies) && i < |replies| && i !in done
      modifies this
      ensures Valid(replies) && done == old(done) + {i}
    {
      var counted := CountMentions(ItemsOf(replies[i]));
      forall name { OneMoreDone(replies, done, i, name); }
      done := done + {i};
      if replies[i].Err? {
        refused := refused + {i};
        return;
      }
      counts := Merge(counts, counted);
    }
  }

  function Merge(a: map<string, nat>, b: map<string, nat>): map<string, nat> {
    map name | name in a.Keys + b.Keys :: Seen(a, name) + Seen(b, name)
  }

  function Indices(n: nat): (indices: set<nat>)
    ensures forall i: nat :: i in indices <==> i < n
  {
    if n == 0 then {} else Indices(n - 1) + {n - 1}
  }

  /** The kinds finish in any order. */
  method ScanMentions(replies: seq<Reply>) returns (counts: map<string, nat>, refused: set<nat>)
    ensures CountsMentions(counts, Read(replies))
    ensures forall i: nat | i < |replies| :: i in refused <==> replies[i].Err?
  {
    var out := new Scanned(replies);
    var running := Indices(|replies|);
    while running != {}
      invariant fresh(out) && out.Valid(replies)
      invariant forall i: nat | i < |replies| :: i in running <==> i !in out.done
      invariant forall i | i in running :: 0 <= i < |replies|
      decreases running
    {
      var i :| i in running;
      out.Finish(replies, i);
      running := running - {i};
    }
    forall name { AllDone(replies, out.done, name); }
    return out.counts, out.refused;
  }

  // ---------------------------------------------------------------------------
  // The corpus
  // ---------------------------------------------------------------------------

  method NewCorpus(items: seq<Value>, mentions: map<string, nat>) returns (mentioned: map<string, nat>)
    ensures forall name :: Seen(mentioned, name) == Mentioning(items, name) + Seen(mentions, name)
  {
    mentioned := CountMentions(items);
    mentioned := Merge(mentioned, mentions);
  }

  /** However the kinds are split between those listed and those scanned, every name is counted
      once for each object read that mentions it. */
  method Mentioned(listed: seq<Value>, replies: seq<Reply>) returns (mentioned: map<string, nat>)
    ensures CountsMentions(mentioned, listed + Read(replies))
  {
    var counts, _ := ScanMentions(replies);
    mentioned := NewCorpus(listed, counts);
    forall name { MentioningAll(listed, Read(replies), name); }
  }

  /** Two ways of splitting the same kinds count alike. */
  lemma {:induction false} SplitDoesNotMatter(kinds: seq<seq<Value>>, scanned: set<nat>, name: string)
    ensures Mentioning(Side(kinds, scanned, false), name) + Mentioning(Side(kinds, scanned, true), name) ==
            Mentioning(Side(kinds, {}, false), name)
  {
    if kinds != [] {
      var last := |kinds| - 1;
      SplitDoesNotMatter(kinds[..last], scanned, name);
      MentioningAll(Side(kinds[..last], scanned, false), kinds[last], name);
      MentioningAll(Side(kinds[..last], scanned, true), kinds[last], name);
      MentioningAll(Side(kinds[..last], {}, false), kinds[last], name);
      assert Side(kinds[..last], scanned, last !in scanned) + [] == Side(kinds[..last], scanned, last !in scanned);
    }
  }

  /** The objects of the kinds that are scanned, or of those that are listed. */
  function Side(kinds: seq<seq<Value>>, scanned: set<nat>, which: bool): seq<Value> {
    if kinds == [] then []
    else
      var last := |kinds| - 1;
      Side(kinds[..last], scanned, which) + if (last in scanned) == which then kinds[last] else []
  }

  /** The orphans among the objects of a kind: exactly those no object read but their own holds. */
  method OrphansOf(every: seq<string>, mentioned: map<string, nat>, ghost corpus: seq<Value>) returns (out: seq<string>)
    requires CountsMentions(mentioned, corpus)
    ensures forall name :: name in out <==> name in every && forall i | 0 <= i < |corpus| :: !Mentions(corpus[i], name)
    ensures forall name :: name in out <==>
              name in every && forall i | 0 <= i < |corpus| && HasLeaf(corpus[i], name) :: MetadataText(corpus[i], "name") == name
  {
    out := [];
    for i := 0 to |every|
      invariant forall name :: name in out <==>
        name in every[..i] && forall j | 0 <= j < |corpus| :: !Mentions(corpus[j], name)
    {
      NoneMentions(corpus, every[i]);
      if Seen(mentioned, every[i]) > 0 {
        continue;
      }
      out := out + [every[i]];
    }
    assert every[..|every|] == every;
  }
}
