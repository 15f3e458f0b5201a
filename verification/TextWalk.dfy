/** The budgeted walk that collects the visible text of a request body. */
module TextWalk {
  import opened Shared
  import Text

  const MAX_BYTES: nat := 16 * 1024
  const MAX_VISITED: nat := 256
  const MAX_DEPTH: nat := 6

  const IGNORED_KEYS := {
    "id", "model", "provider", "providerid", "providername", "requestid", "providerrequestid", "role", "type", "url",
    "uri", "format", "mimetype", "contenttype", "tool", "toolname", "toolchoice", "name"
  }

  /** A JSON value. The children of an object are named; those of an array are not, and keep the array's own key. */
  datatype Json = Scalar | Str(text: string) | Node(children: Children)
  datatype Children = End | Child(name: Option<string>, value: Json, rest: Children)

  function WithoutMarks(s: string): string {
    if s == "" then ""
    else if s[0] == '_' || s[0] == '-' then WithoutMarks(s[1..])
    else [s[0]] + WithoutMarks(s[1..])
  }

  predicate IgnoredKey(key: Option<string>) {
    key.Some? && key.value != "" && WithoutMarks(Text.Normalize(key.value)) in IGNORED_KEYS
  }

  function KeyOf(name: Option<string>, key: Option<string>): Option<string> {
    if name.Some? then name else key
  }

  /** The trimmed, non-blank strings that are not under an ignored key, in pre-order. */
  function Visible(value: Json, key: Option<string>): seq<string>
    decreases value
  {
    match value
    case Scalar => []
    case Str(text) => if Text.Trim(text) == "" || IgnoredKey(key) then [] else [Text.Trim(text)]
    case Node(children) => VisibleOf(children, key)
  }

  function VisibleOf(children: Children, key: Option<string>): seq<string>
    decreases children
  {
    if children.End? then []
    else Visible(children.value, KeyOf(children.name, key)) + VisibleOf(children.rest, key)
  }

  /** As `Visible`, but without what lies too deep. */
  function Reachable(value: Json, depth: nat, key: Option<string>): seq<string>
    decreases value
  {
    if depth > MAX_DEPTH then []
    else
      match value
      case Scalar => []
      case Str(text) => if Text.Trim(text) == "" || IgnoredKey(key) then [] else [Text.Trim(text)]
      case Node(children) => ReachableOf(children, depth + 1, key)
  }

  function ReachableOf(children: Children, depth: nat, key: Option<string>): seq<string>
    decreases children
  {
    if children.End? then []
    else Reachable(children.value, depth, KeyOf(children.name, key)) + ReachableOf(children.rest, depth, key)
  }

  lemma {:induction false} ReachableIsVisible(value: Json, depth: nat, key: Option<string>)
    requires depth + Height(value) <= MAX_DEPTH
    ensures Reachable(value, depth, key) == Visible(value, key)
    decreases value
  {
    if value.Node? && value.children.Child? {
      ReachableOfIsVisible(value.children, depth + 1, key);
    }
  }

  lemma {:induction false} ReachableOfIsVisible(children: Children, depth: nat, key: Option<string>)
    requires children.Child? ==> depth + HeightOf(children) <= MAX_DEPTH
    ensures ReachableOf(children, depth, key) == VisibleOf(children, key)
    decreases children
  {
    if children.End? {
    } else {
      ReachableIsVisible(children.value, depth, KeyOf(children.name, key));
      ReachableOfIsVisible(children.rest, depth, key);
    }
  }

  /** The text of the parts, one after another. */
  function Joined(parts: seq<string>): string {
    if parts == [] then "" else parts[0] + Joined(parts[1..])
  }

  lemma {:induction false} JoinedAppend(a: seq<string>, b: seq<string>)
    ensures Joined(a + b) == Joined(a) + Joined(b)
  {
    if a == [] {
      assert a + b == b;
    } else {
      assert (a + b)[1..] == a[1..] + b;
      JoinedAppend(a[1..], b);
    }
  }

  /** The parts hold all of a text, or, once the budget is exhausted, a beginning of it. */
  predicate Holds(parts: seq<string>, text: string, exhausted: bool) {
    Joined(parts) == text || (exhausted && Joined(parts) <= text)
  }

  /** Parts that hold the text before a cut, or the beginning of all the text. */
  predicate HoldsBefore(parts: seq<string>, rest: string, text: string, exhausted: bool) {
    Joined(parts) + rest == text || (exhausted && Joined(parts) <= text)
  }

  lemma HoldsMore(parts: seq<string>, added: seq<string>, first: string, rest: string, text: string, before: bool,
                  after: bool)
    requires HoldsBefore(parts, first + rest, text, before)
    requires Holds(added, first, after)
    requires before ==> added == [] && after
    ensures HoldsBefore(parts + added, rest, text, after)
  {
    JoinedAppend(parts, added);
    if Joined(parts) + (first + rest) == text {
      assert Joined(parts) + first + rest == text;
      if Joined(added) != first {
        assert Joined(parts) + Joined(added) <= Joined(parts) + first;
      }
    }
  }

  function Nodes(value: Json): (n: nat)
    ensures n >= 1
    decreases value
  {
    if value.Node? then 1 + NodesOf(value.children) else 1
  }

  function NodesOf(children: Children): nat
    decreases children
  {
    if children.End? then 0 else Nodes(children.value) + NodesOf(children.rest)
  }

  function Height(value: Json): nat
    decreases value
  {
    if value.Node? && value.children.Child? then 1 + HeightOf(value.children) else 0
  }

  /** The height of the tallest child. */
  function HeightOf(children: Children): nat
    decreases children
  {
    if children.End? then 0
    else
      var first, rest := Height(children.value), HeightOf(children.rest);
      if first > rest then first else rest
  }

  function Length(parts: seq<string>): nat {
    if parts == [] then 0 else |parts[0]| + Length(parts[1..])
  }

  lemma {:induction false} LengthAppend(a: seq<string>, b: seq<string>)
    ensures Length(a + b) == Length(a) + Length(b)
  {
    if a == [] {
      assert a + b == b;
    } else {
      assert (a + b)[1..] == a[1..] + b;
      LengthAppend(a[1..], b);
    }
  }

  /** The length of the visible text. */
  function Size(value: Json, key: Option<string>): nat
    decreases value
  {
    match value
    case Scalar => 0
    case Str(text) => if IgnoredKey(key) then 0 else |Text.Trim(text)|
    case Node(children) => SizeOf(children, key)
  }

  function SizeOf(children: Children, key: Option<string>): nat
    decreases children
  {
    if children.End? then 0 else Size(children.value, KeyOf(children.name, key)) + SizeOf(children.rest, key)
  }

  lemma {:induction false} SizeIsLength(value: Json, key: Option<string>)
    ensures Size(value, key) == Length(Visible(value, key))
    decreases value
  {
    match value
    case Scalar =>
    case Str(text) => assert Length([Text.Trim(text)]) == |Text.Trim(text)|;
    case Node(children) => SizeOfIsLength(children, key);
  }

  lemma {:induction false} SizeOfIsLength(children: Children, key: Option<string>)
    ensures SizeOf(children, key) == Length(VisibleOf(children, key))
    decreases children
  {
    if children.End? {
    } else {
      SizeIsLength(children.value, KeyOf(children.name, key));
      SizeOfIsLength(children.rest, key);
      LengthAppend(Visible(children.value, KeyOf(children.name, key)), VisibleOf(children.rest, key));
    }
  }

  /** Room in the budget for values of some height, number of nodes and text; `below` leaves text to spare. */
  predicate Room(height: nat, nodes: nat, text: nat, below: bool, depth: nat, bytes: nat, visited: nat) {
    && depth + height <= MAX_DEPTH
    && visited + nodes <= MAX_VISITED
    && bytes < MAX_BYTES
    && if below then bytes + text < MAX_BYTES else bytes + text <= MAX_BYTES
  }

  /** The whole of a value fits in what is left of the budget. A string of a collection may not fill it up. */
  predicate Fits(value: Json, depth: nat, key: Option<string>, bytes: nat, visited: nat) {
    Room(Height(value), Nodes(value), Size(value, key), value.Node?, depth, bytes, visited)
  }

  predicate FitsOf(children: Children, depth: nat, key: Option<string>, bytes: nat, visited: nat) {
    if children.End? then visited <= MAX_VISITED && bytes < MAX_BYTES
    else Room(HeightOf(children), NodesOf(children), SizeOf(children, key), true, depth, bytes, visited)
  }

  /** Children fit exactly when the first fits without filling the budget and the others fit in the remainder. */
  lemma FitsFirst(children: Children, depth: nat, key: Option<string>, bytes: nat, visited: nat)
    requires children.Child?
    ensures var key0 := KeyOf(children.name, key);
      var taken := Size(children.value, key0);
      FitsOf(children, depth, key, bytes, visited)
      <==> Fits(children.value, depth, key0, bytes, visited)
           && bytes + taken < MAX_BYTES
           && FitsOf(children.rest, depth, key, bytes + taken, visited + Nodes(children.value))
  {
    RoomFirst(Height(children.value), Nodes(children.value), Size(children.value, KeyOf(children.name, key)),
              children.value.Node?, HeightOf(children.rest), NodesOf(children.rest), SizeOf(children.rest, key),
              depth, bytes, visited);
  }

  lemma RoomFirst(height: nat, nodes: nat, text: nat, below: bool, heights: nat, others: nat, rest: nat,
                  depth: nat, bytes: nat, visited: nat)
    ensures Room(if height > heights then height else heights, nodes + others, text + rest, true, depth, bytes, visited)
      <==> Room(height, nodes, text, below, depth, bytes, visited)
           && bytes + text < MAX_BYTES
           && Room(heights, others, rest, true, depth, bytes + text, visited + nodes)
    ensures Room(height, nodes, text, true, depth, bytes, visited)
      <==> Room(height, nodes, text, below, depth, bytes, visited) && bytes + text < MAX_BYTES
  {
  }

  /** How far a budget has come. */
  datatype Spent = Spent(parts: seq<string>, bytes: nat, visited: nat)

  function After(spent: Spent, visible: seq<string>, nodes: nat): Spent {
    Spent(spent.parts + visible, spent.bytes + Length(visible), spent.visited + nodes)
  }

  predicate Exhausted(spent: Spent) {
    spent.bytes >= MAX_BYTES || spent.visited >= MAX_VISITED
  }

  /**
   * What a walk over `visible` text does to a budget. When it fits, everything is added; in any case the text that
   * is not too deep is added, or what the budget allows of it.
   */
  ghost predicate Outcome(before: Spent, after: Spent, fits: bool, visible: seq<string>, nodes: nat,
                          reachable: seq<string>) {
    && before.parts <= after.parts && before.visited <= after.visited && before.bytes <= after.bytes
    && (fits ==> after == After(before, visible, nodes))
    && Holds(after.parts[|before.parts|..], Joined(reachable), Exhausted(after))
    && (Exhausted(before) ==> after.parts == before.parts && Exhausted(after))
  }

  ghost predicate OutcomeOf(value: Json, depth: nat, key: Option<string>, before: Spent, after: Spent) {
    Outcome(before, after, Fits(value, depth, key, before.bytes, before.visited),
            Visible(value, key), Nodes(value), Reachable(value, depth, key))
  }

  ghost predicate OutcomeOfAll(children: Children, depth: nat, key: Option<string>, before: Spent, after: Spent) {
    Outcome(before, after, FitsOf(children, depth, key, before.bytes, before.visited),
            VisibleOf(children, key), NodesOf(children), ReachableOf(children, depth, key))
  }

  /** From here, the children that are left lead to where all children lead from the start. */
  ghost predicate OnTheWay(start: Spent, children: Children, here: Spent, left: Children, depth: nat,
                           key: Option<string>) {
    && After(here, VisibleOf(left, key), NodesOf(left)) == After(start, VisibleOf(children, key), NodesOf(children))
    && FitsOf(left, depth, key, here.bytes, here.visited) == FitsOf(children, depth, key, start.bytes, start.visited)
  }

  /** What a walk over children has done when only some of them are left. */
  ghost predicate Progress(start: Spent, children: Children, here: Spent, left: Children, depth: nat,
                           key: Option<string>, whole: bool) {
    && start.parts <= here.parts && start.visited <= here.visited && start.bytes <= here.bytes
    && (if whole then OnTheWay(start, children, here, left, depth, key)
        else !FitsOf(children, depth, key, start.bytes, start.visited))
    && HoldsBefore(here.parts[|start.parts|..], Joined(ReachableOf(left, depth, key)),
                   Joined(ReachableOf(children, depth, key)), Exhausted(here))
    && (Exhausted(start) ==> here.parts == start.parts && Exhausted(here))
  }

  /** Adding a text in two steps is adding all of it. */
  lemma AfterFirst(here: Spent, first: seq<string>, nodes: nat, rest: seq<string>, others: nat)
    ensures After(here, first + rest, nodes + others) == After(After(here, first, nodes), rest, others)
  {
    LengthAppend(first, rest);
    assert here.parts + (first + rest) == here.parts + first + rest;
  }

  lemma TextFurther(here: Spent, left: Children, key: Option<string>, goal: Spent)
    requires left.Child? && After(here, VisibleOf(left, key), NodesOf(left)) == goal
    ensures var next := After(here, Visible(left.value, KeyOf(left.name, key)), Nodes(left.value));
      After(next, VisibleOf(left.rest, key), NodesOf(left.rest)) == goal
  {
    AfterFirst(here, Visible(left.value, KeyOf(left.name, key)), Nodes(left.value), VisibleOf(left.rest, key),
               NodesOf(left.rest));
  }

  lemma RoomFurther(here: Spent, left: Children, depth: nat, key: Option<string>, fits: bool)
    requires left.Child? && FitsOf(left, depth, key, here.bytes, here.visited) == fits
    ensures var key0 := KeyOf(left.name, key);
      var next := After(here, Visible(left.value, key0), Nodes(left.value));
      if Fits(left.value, depth, key0, here.bytes, here.visited) && next.bytes < MAX_BYTES
      then FitsOf(left.rest, depth, key, next.bytes, next.visited) == fits
      else !fits
  {
    SizeIsLength(left.value, KeyOf(left.name, key));
    FitsFirst(left, depth, key, here.bytes, here.visited);
  }

  lemma OneChildFurther(start: Spent, children: Children, here: Spent, left: Children, depth: nat, key: Option<string>)
    requires left.Child? && OnTheWay(start, children, here, left, depth, key)
    ensures var key0 := KeyOf(left.name, key);
      var next := After(here, Visible(left.value, key0), Nodes(left.value));
      if Fits(left.value, depth, key0, here.bytes, here.visited) && next.bytes < MAX_BYTES
      then OnTheWay(start, children, next, left.rest, depth, key)
      else !FitsOf(children, depth, key, start.bytes, start.visited)
  {
    TextFurther(here, left, key, After(start, VisibleOf(children, key), NodesOf(children)));
    RoomFurther(here, left, depth, key, FitsOf(children, depth, key, start.bytes, start.visited));
  }

  lemma OnePartFurther(start: seq<string>, here: seq<string>, next: seq<string>, left: Children, depth: nat,
                       key: Option<string>, text: string, exhausted: bool, later: bool)
    requires left.Child? && start <= here <= next
    requires HoldsBefore(here[|start|..], Joined(ReachableOf(left, depth, key)), text, exhausted)
    requires Holds(next[|here|..], Joined(Reachable(left.value, depth, KeyOf(left.name, key))), later)
    requires exhausted ==> next == here && later
    ensures HoldsBefore(next[|start|..], Joined(ReachableOf(left.rest, depth, key)), text, later)
  {
    var first, rest := Reachable(left.value, depth, KeyOf(left.name, key)), ReachableOf(left.rest, depth, key);
    JoinedAppend(first, rest);
    HoldsMore(here[|start|..], next[|here|..], Joined(first), Joined(rest), text, exhausted, later);
    assert next[|start|..] == here[|start|..] + next[|here|..];
  }

  lemma ProgressStarts(start: Spent, children: Children, depth: nat, key: Option<string>)
    ensures Progress(start, children, start, children, depth, key, true)
  {
    assert start.parts[|start.parts|..] == [];
  }

  lemma ProgressStep(start: Spent, children: Children, here: Spent, next: Spent, left: Children, depth: nat,
                     key: Option<string>, whole: bool, fits: bool)
    requires left.Child? && Progress(start, children, here, left, depth, key, whole)
    requires OutcomeOf(left.value, depth, KeyOf(left.name, key), here, next)
    requires fits == Fits(left.value, depth, KeyOf(left.name, key), here.bytes, here.visited)
    ensures Progress(start, children, next, left.rest, depth, key, whole && fits && next.bytes < MAX_BYTES)
  {
    if whole {
      OneChildFurther(start, children, here, left, depth, key);
    }
    OnePartFurther(start.parts, here.parts, next.parts, left, depth, key, Joined(ReachableOf(children, depth, key)),
                   Exhausted(here), Exhausted(next));
  }

  lemma ProgressEnds(start: Spent, children: Children, here: Spent, left: Children, depth: nat, key: Option<string>,
                     whole: bool)
    requires Progress(start, children, here, left, depth, key, whole)
    requires here.visited <= MAX_VISITED
    requires if here.bytes < MAX_BYTES then left.End? else !whole
    ensures OutcomeOfAll(children, depth, key, start, here)
    ensures whole == FitsOf(children, depth, key, start.bytes, start.visited)
  {
    assert left.End? ==> here.parts + VisibleOf(left, key) == here.parts;
  }

  lemma RefusedOutcome(value: Json, depth: nat, key: Option<string>, here: Spent)
    requires depth > MAX_DEPTH || Exhausted(here)
    ensures OutcomeOf(value, depth, key, here, here) && !Fits(value, depth, key, here.bytes, here.visited)
  {
    assert here.parts[|here.parts|..] == [];
    assert depth > MAX_DEPTH ==> Reachable(value, depth, key) == [];
  }

  lemma NodeOutcome(value: Json, depth: nat, key: Option<string>, before: Spent, after: Spent)
    requires value.Node? && depth <= MAX_DEPTH && !Exhausted(before)
    requires OutcomeOfAll(value.children, depth + 1, key, before.(visited := before.visited + 1), after)
    ensures OutcomeOf(value, depth, key, before, after)
    ensures Fits(value, depth, key, before.bytes, before.visited)
         == FitsOf(value.children, depth + 1, key, before.bytes, before.visited + 1)
  {
  }

  /** The outcome for a value without children, of which `visible` is the text. */
  lemma LeafOutcome(value: Json, depth: nat, key: Option<string>, before: Spent, after: Spent)
    requires !value.Node? && depth <= MAX_DEPTH && !Exhausted(before)
    requires after.visited == before.visited + 1 && before.bytes <= after.bytes && before.parts <= after.parts
    requires before.bytes + Length(Visible(value, key)) <= MAX_BYTES ==> after == After(before, Visible(value, key), 1)
    requires Holds(after.parts[|before.parts|..], Joined(Visible(value, key)), after.bytes >= MAX_BYTES)
    ensures OutcomeOf(value, depth, key, before, after)
    ensures Fits(value, depth, key, before.bytes, before.visited)
        == (before.bytes + Length(Visible(value, key)) <= MAX_BYTES)
  {
    assert Reachable(value, depth, key) == Visible(value, key);
    SizeIsLength(value, key);
  }

  /** The collected parts and what has been spent on them. */
  class TextBudget {
    var parts: seq<string>
    var bytes: nat
    var visited: nat
    var truncated: bool

    ghost predicate Valid()
      reads this
    {
      bytes == Length(parts) && bytes <= MAX_BYTES && visited <= MAX_VISITED
    }

    constructor ()
      ensures Valid() && parts == [] && visited == 0 && !truncated
    {
      parts, bytes, visited, truncated := [], 0, 0, false;
    }

    ghost function Now(): Spent
      reads this
    {
      Spent(parts, bytes, visited)
    }

    method Collect(value: Json, depth: nat, key: Option<string>)
      requires Valid()
      modifies this
      ensures Valid()
      ensures OutcomeOf(value, depth, key, old(Now()), Now())
      ensures truncated == (old(truncated) || !Fits(value, depth, key, old(bytes), old(visited)))
      decreases value
    {
      hide Outcome, Fits, FitsOf, Reachable, Size, Height, Nodes, IgnoredKey, Joined;
      if depth > MAX_DEPTH || visited >= MAX_VISITED || bytes >= MAX_BYTES {
        truncated := true;
        RefusedOutcome(value, depth, key, Now());
        return;
      }
      visited := visited + 1;
      match value
      case Scalar =>
        assert parts + [] == parts && parts[|parts|..] == [];
        LeafOutcome(value, depth, key, old(Now()), Now());
      case Str(text) =>
        CollectString(Text.Trim(text), key);
        LeafOutcome(value, depth, key, old(Now()), Now());
      case Node(children) =>
        CollectChildren(children, depth, key);
        NodeOutcome(value, depth, key, old(Now()), Now());
    }

    method CollectString(trimmed: string, key: Option<string>)
      requires Valid() && bytes < MAX_BYTES
      modifies this
      ensures Valid()
      ensures var visible := if trimmed == "" || IgnoredKey(key) then [] else [trimmed];
        var fits := old(bytes) + Length(visible) <= MAX_BYTES;
        && truncated == (old(truncated) || !fits)
        && visited == old(visited)
        && (fits ==> Now() == After(old(Now()), visible, 0))
        && old(parts) <= parts && old(bytes) <= bytes
        && Holds(parts[|old(parts)|..], Joined(visible), bytes >= MAX_BYTES)
    {
      if trimmed == "" || IgnoredKey(key) {
        return;
      }
      var remaining := MAX_BYTES - bytes;
      var slice := if |trimmed| <= remaining then trimmed else trimmed[..remaining];
      LengthAppend(parts, [slice]);
      assert Length([slice]) == |slice| && Length([trimmed]) == |trimmed|;
      parts := parts + [slice];
      bytes := bytes + |slice|;
      if |slice| < |trimmed| {
        truncated := true;
      }
    }

    method CollectChildren(children: Children, depth: nat, key: Option<string>)
      requires Valid() && bytes < MAX_BYTES
      modifies this
      ensures Valid()
      ensures OutcomeOfAll(children, depth + 1, key, old(Now()), Now())
      ensures truncated == (old(truncated) || !FitsOf(children, depth + 1, key, old(bytes), old(visited)))
      decreases children
    {
      hide Progress, Outcome;
      var left := children;
      ghost var start, whole := Now(), true;
      ProgressStarts(start, children, depth + 1, key);
      while left.Child?
        invariant Valid() && bytes < MAX_BYTES
        invariant left == children || left < children
        invariant Progress(start, children, Now(), left, depth + 1, key, whole)
        invariant truncated == (old(truncated) || !whole)
        decreases left
      {
        ghost var here, fits := Now(), Fits(left.value, depth + 1, KeyOf(left.name, key), bytes, visited);
        Collect(left.value, depth + 1, KeyOf(left.name, key));
        ProgressStep(start, children, here, Now(), left, depth + 1, key, whole, fits);
        whole := whole && fits && bytes < MAX_BYTES;
        left := left.rest;
        if bytes >= MAX_BYTES {
          truncated := true;
          break;
        }
      }
      ProgressEnds(start, children, Now(), left, depth + 1, key, whole);
    }
  }

  /** The visible text of a body, and whether some of it is missing. */
  method VisibleText(body: Json) returns (parts: seq<string>, truncated: bool)
    ensures !truncated ==> parts == Visible(body, None)
    ensures truncated <==> Height(body) > MAX_DEPTH || Nodes(body) > MAX_VISITED
                           || Length(Visible(body, None)) > MAX_BYTES
                           || (body.Node? && Length(Visible(body, None)) == MAX_BYTES)
    ensures Length(parts) <= MAX_BYTES
    ensures Joined(parts) <= Joined(Reachable(body, 0, None))
    ensures Height(body) <= MAX_DEPTH ==> Joined(parts) <= Joined(Visible(body, None))
  {
    SizeIsLength(body, None);
    var budget := new TextBudget();
    budget.Collect(body, 0, None);
    if Height(body) <= MAX_DEPTH {
      ReachableIsVisible(body, 0, None);
    }
    assert budget.parts[0..] == budget.parts;
    parts, truncated := budget.parts, budget.truncated;
  }
}
