/** The well-formedness pass that runs before any value is built from untrusted bytes. */
module Preflight {
  import opened Bytes
  import opened Results
  import opened Syntax

  const MAX_DEPTH: nat := 32
  const MAX_ITEMS: nat := 1_000_000

  /** What the pass is for, without reference to how it works: the input is exactly
      one supported item, nested at most 32 deep, of at most a million items. */
  ghost predicate WellFormed(input: seq<u8>) {
    exists t: Item :: t.Valid() && Print(t) == input && t.Depth() <= MAX_DEPTH && t.Count() <= MAX_ITEMS
  }

  /** The same by parsing. */
  predicate Accepts(input: seq<u8>) {
    match Parse(input)
    case Bad => false
    case Good(t, rest) => rest == [] && t.Depth() <= MAX_DEPTH && t.Count() <= MAX_ITEMS
  }

  lemma AcceptsIsWellFormed(input: seq<u8>)
    requires |input| <= USIZE_MAX
    ensures Accepts(input) <==> WellFormed(input)
  {
    if Accepts(input) {
      PrintParse(input);
      assert Print(Parse(input).value) + [] == Print(Parse(input).value);
    }
    if t: Item :| t.Valid() && Print(t) == input && t.Depth() <= MAX_DEPTH && t.Count() <= MAX_ITEMS {
      ParsePrint(t, []);
      assert input + [] == input;
    }
  }

  /** `t` fits below an item at nesting `depth` within the remaining item budget. */
  predicate Fits(t: Item, depth: nat, budget: nat) {
    depth + t.Depth() <= MAX_DEPTH && t.Count() <= budget
  }

  predicate FitAll(ts: seq<Item>, depth: nat, budget: nat) {
    (ts == [] || depth + MaxDepth(ts) <= MAX_DEPTH) && CountAll(ts) <= budget
  }

  /** How the state of a container loop relates to parsing the container at once:
      `done` was read, and `left` items are still expected at the remaining bytes. */
  ghost function Resume(done: seq<Item>, left: Parsed<seq<Item>>): (r: Parsed<seq<Item>>) {
    if left.Bad? then Bad else Good(done + left.value, left.rest)
  }

  lemma {:induction false} AppendItem(ts: seq<Item>, t: Item)
    ensures CountAll(ts + [t]) == CountAll(ts) + t.Count()
    ensures MaxDepth(ts + [t]) == if MaxDepth(ts) < t.Depth() then t.Depth() else MaxDepth(ts)
  {
    if ts == [] {
      assert ts + [t] == [t];
    } else {
      assert (ts + [t])[1..] == ts[1..] + [t];
      AppendItem(ts[1..], t);
    }
  }

  lemma {:induction false} PrefixBounds(ts: seq<Item>, us: seq<Item>)
    ensures CountAll(ts + us) == CountAll(ts) + CountAll(us)
    ensures MaxDepth(ts) <= MaxDepth(ts + us) && MaxDepth(us) <= MaxDepth(ts + us)
  {
    if ts == [] {
      assert ts + us == us;
    } else {
      assert (ts + us)[1..] == ts[1..] + us;
      PrefixBounds(ts[1..], us);
    }
  }

  lemma ResumeNothing(p: Parsed<seq<Item>>)
    ensures Resume([], p) == p
  {
    if p.Good? {
      assert [] + p.value == p.value;
    }
  }

  lemma StepSucceeds(done: seq<Item>, left: nat, s: seq<u8>)
    requires left > 0 && Parse(s).Good?
    ensures Resume(done, ParseAll(left, s)) == Resume(done + [Parse(s).value], ParseAll(left - 1, Parse(s).rest))
  {
    ParseAllStep(left, s);
    var next := ParseAll(left - 1, Parse(s).rest);
    if next.Good? {
      Assoc(done, [Parse(s).value], next.value);
    }
  }

  lemma StepFails(done: seq<Item>, left: nat, s: seq<u8>, depth: nat, budget: nat, spare: nat)
    requires left > 0 && spare + CountAll(done) == budget
    requires Parse(s).Bad? || !Fits(Parse(s).value, depth, spare)
    ensures var all := Resume(done, ParseAll(left, s));
            all.Bad? || !FitAll(all.value, depth, budget)
  {
    if Parse(s).Good? {
      StepSucceeds(done, left, s);
      var next := ParseAll(left - 1, Parse(s).rest);
      if next.Good? {
        AppendItem(done, Parse(s).value);
        PrefixBounds(done + [Parse(s).value], next.value);
      }
    }
  }

  /** What reading one item must establish, given how that item parses. */
  ghost predicate Checked(input: seq<u8>, parsed: Parsed<Item>, depth: nat, budget: nat,
                          ok: bool, at': nat, budget': nat)
  {
    match parsed
    case Bad => !ok
    case Good(t, rest) =>
      && ok == Fits(t, depth, budget)
      && (ok ==> at' <= |input| && rest == input[at'..] && budget' + t.Count() == budget)
  }

  /** The same for the items of a container. */
  ghost predicate AllChecked(input: seq<u8>, parsed: Parsed<seq<Item>>, depth: nat, budget: nat,
                             ok: bool, at': nat, budget': nat)
  {
    match parsed
    case Bad => !ok
    case Good(ts, rest) =>
      && ok == FitAll(ts, depth, budget)
      && (ok ==> at' <= |input| && rest == input[at'..] && budget' + CountAll(ts) == budget)
  }

  /** Reads the initial byte and argument at `at`, which must be inside the input. */
  method CheckHead(input: seq<u8>, at: nat) returns (r: Result<HeadOf>, at': nat)
    requires at < |input| <= USIZE_MAX
    ensures match ReadHead(input[at..])
            case Bad => r.Err?
            case Good(h, rest) => r == Ok(h) && at' <= |input| && rest == input[at'..]
  {
    var head := input[at];
    at' := at + 1;
    var major, add := head / 32, head % 32;
    if add <= 23 {
      r := Ok(HeadOf(major, Inline, add));
    } else if add <= 27 {
      var n := WidthOf(add).Size();
      var end := at' + n;
      if end > |input| {
        return Err(InvalidData), at';
      }
      RadixValues();
      FromBigEndianBound(input[at'..end]);
      r := Ok(HeadOf(major, WidthOf(add), FromBigEndian(input[at'..end])));
      assert input[at..][1..1 + n] == input[at'..end];
      at' := end;
    } else {
      r := Err(InvalidData);
    }
  }

  /** Reads one item at `at`; `at` and `budget` are the caller's, advanced and spent. */
  method CheckItem(input: seq<u8>, at: nat, depth: nat, budget: nat)
    returns (r: Result<()>, at': nat, budget': nat)
    requires at <= |input| <= USIZE_MAX
    ensures Checked(input, Parse(input[at..]), depth, budget, r.Ok?, at', budget')
    decreases MAX_DEPTH + 1 - depth, 1
  {
    at', budget' := at, budget;
    if depth > MAX_DEPTH || budget == 0 {
      return Err(ResourceLimit), at', budget';
    }
    budget' := budget' - 1;
    if at' >= |input| {
      return Err(InvalidData), at', budget';
    }
    var head;
    head, at' := CheckHead(input, at');
    if head.Err? {
      return Err(head.error), at', budget';
    }
    r, at', budget' := CheckContent(input, at', head.value, depth, budget');
  }

  /** The rest of an item whose initial byte and argument have been read. */
  method CheckContent(input: seq<u8>, at: nat, head: HeadOf, depth: nat, budget: nat)
    returns (r: Result<()>, at': nat, budget': nat)
    requires at <= |input| <= USIZE_MAX && depth <= MAX_DEPTH
    ensures Checked(input, ParseContent(head, input[at..]), depth, budget + 1, r.Ok?, at', budget')
    decreases MAX_DEPTH + 1 - depth, 0, 1
  {
    hide Parse, ParseAll;
    at', budget' := at, budget;
    var HeadOf(major, width, argument) := head;
    if major == 0 || major == 1 {
    } else if major == 2 || major == 3 {
      if at' + argument > USIZE_MAX || at' + argument > |input| {
        return Err(InvalidData), at', budget';
      }
      at' := at' + argument;
      assert input[at..][argument..] == input[at'..];
    } else if major == 4 || major == 5 {
      var count := argument * (if major == 5 then 2 else 1);
      if count > USIZE_MAX {
        return Err(InvalidData), at', budget';
      }
      if count > budget' {
        return Err(ResourceLimit), at', budget';
      }
      if count > |input| - at' {
        return Err(InvalidData), at', budget';
      }
      r, at', budget' := CheckItems(input, at', count, depth, budget');
      return;
    } else if major == 7
              && ((width.Inline? && 20 <= argument <= 22) || width.Two? || width.Four? || width.Eight?) {
    } else {
      return Err(InvalidData), at', budget';
    }
    return Ok(()), at', budget';
  }

  /** The items of a container found at nesting `depth`. */
  method CheckItems(input: seq<u8>, at: nat, count: nat, depth: nat, budget: nat)
    returns (r: Result<()>, at': nat, budget': nat)
    requires at <= |input| <= USIZE_MAX && depth <= MAX_DEPTH
    ensures AllChecked(input, ParseAll(count, input[at..]), depth + 1, budget, r.Ok?, at', budget')
    decreases MAX_DEPTH + 1 - depth, 0, 0
  {
    hide Parse, ParseContent;
    at', budget' := at, budget;
    ghost var done: seq<Item> := [];
    ResumeNothing(ParseAll(count, input[at..]));
    for i := 0 to count
      invariant at' <= |input| && |done| == i
      invariant ParseAll(count, input[at..]) == Resume(done, ParseAll(count - i, input[at'..]))
      invariant FitAll(done, depth + 1, budget) && budget' + CountAll(done) == budget
    {
      ghost var here, spare := input[at'..], budget';
      r, at', budget' := CheckItem(input, at', depth + 1, budget');
      if r.Err? {
        StepFails(done, count - i, here, depth + 1, budget, spare);
        return;
      }
      StepSucceeds(done, count - i, here);
      AppendItem(done, Parse(here).value);
      done := done + [Parse(here).value];
    }
    assert done + [] == done;
    r := Ok(());
  }

  method Preflight(input: seq<u8>) returns (r: Result<()>)
    requires |input| <= USIZE_MAX
    ensures r.Ok? <==> WellFormed(input)
    ensures r.Ok? <==> Accepts(input)
  {
    var at, budget;
    assert input[0..] == input;
    r, at, budget := CheckItem(input, 0, 0, MAX_ITEMS);
    AcceptsIsWellFormed(input);
    if r.Ok? && at != |input| {
      r := Err(InvalidData);
    }
  }
}
