/** The output assembler of lib/core.js (`outputHandler`, `isChild`, `isRef`): a stack
    machine that re-nests the flat, ordered stream of keyword results that interpretation
    emits, under the FLAG, BASIC, DETAILED and VERBOSE output formats. */
module Output {
  import opened Base
  import Url

  datatype Format = Flag | Basic | Detailed | Verbose

  /** The format check done before any interpretation: one of the four names, or
      "The '<format>' error format is not supported". */
  function ParseFormat(name: string): (r: Result<Format>)
    ensures r.Ok? <==> name in {"FLAG", "BASIC", "DETAILED", "VERBOSE"}
    ensures r.Err? ==> r.error == UnsupportedOutputFormat(name)
    ensures r == Ok(Flag) <==> name == "FLAG"
    ensures r == Ok(Verbose) <==> name == "VERBOSE"
  {
    match name
    case "FLAG" => Ok(Flag)
    case "BASIC" => Ok(Basic)
    case "DETAILED" => Ok(Detailed)
    case "VERBOSE" => Ok(Verbose)
    case _ => Err(UnsupportedOutputFormat(name))
  }

  /** One published keyword result. */
  datatype Event = Event(keyword: string, absoluteKeywordLocation: string, instanceLocation: string, valid: bool)

  /** A result under assembly. */
  datatype Node = Node(keyword: string, absoluteKeywordLocation: string, instanceLocation: string,
                       valid: bool, errors: Errors)

  /** A result's `errors` field: the nested results, or `Removed` once BASIC has deleted it. */
  datatype Errors = Removed | Listed(nodes: seq<Node>)

  /** `{ ...keywordResult, errors: [] }` */
  function Fresh(e: Event): Node {
    Node(e.keyword, e.absoluteKeywordLocation, e.instanceLocation, e.valid, Listed([]))
  }

  function ErrorsOf(n: Node): seq<Node> {
    match n.errors case Listed(es) => es case Removed => []
  }

  /** `isRef`: the result of a `$ref` or `$recursiveRef` keyword. */
  predicate IsRef(n: Node) {
    Url.EndsWith(n.keyword, "#$ref") || Url.EndsWith(n.keyword, "#$recursiveRef")
  }

  /** `isChild(top, next)`: `top` lies under `next` in the instance, and under it in the
      schema too unless `top` is a reference result. */
  predicate IsChild(top: Node, next: Node) {
    Url.StartsWith(top.instanceLocation, next.instanceLocation)
    && (Url.StartsWith(top.absoluteKeywordLocation, next.absoluteKeywordLocation) || IsRef(top))
  }

  /** What a popped entry contributes to its parent's errors: itself, and under BASIC
      its own errors spliced in after it with its `errors` field removed. */
  function Moved(top: Node, format: Format): seq<Node> {
    if format == Basic then [top.(errors := Removed)] + ErrorsOf(top) else [top]
  }

  /** The pop loop: while the top of the stack is a child of `result`, pop it and put it
      in front of `result`'s errors; a reference result absorbs at most one entry. */
  function Absorb(stack: seq<Node>, result: Node, format: Format): (r: (seq<Node>, Node))
    decreases |stack|
  {
    if stack == [] || !IsChild(stack[|stack| - 1], result) then (stack, result)
    else
      var next := result.(errors := Listed(Moved(stack[|stack| - 1], format) + ErrorsOf(result)));
      if IsRef(next) then (stack[..|stack| - 1], next)
      else Absorb(stack[..|stack| - 1], next, format)
  }

  /** Whether the finished result stays on the stack. */
  predicate Kept(format: Format, n: Node) {
    format == Verbose || (format != Flag && !n.valid)
  }

  datatype State = State(stack: seq<Node>, output: Option<Node>)

  /** The handler's reaction to one event. */
  function Handle(s: State, e: Event, format: Format): State {
    var (rest, result) := Absorb(s.stack, Fresh(e), format);
    State(if Kept(format, result) then rest + [result] else rest, Some(result))
  }

  /** The handler after a whole event stream, starting from an empty stack. */
  function Run(format: Format, events: seq<Event>): State
    decreases |events|
  {
    if events == [] then State([], None)
    else Handle(Run(format, events[..|events| - 1]), events[|events| - 1], format)
  }

  // ---------------------------------------------------------------- properties

  /** The absorbed result keeps the event's own fields; only its errors change. */
  lemma {:induction false} AbsorbKeepsFields(stack: seq<Node>, result: Node, format: Format)
    requires result.errors.Listed?
    ensures var r := Absorb(stack, result, format).1;
      r.keyword == result.keyword && r.absoluteKeywordLocation == result.absoluteKeywordLocation
      && r.instanceLocation == result.instanceLocation && r.valid == result.valid && r.errors.Listed?
    ensures |Absorb(stack, result, format).0| <= |stack|
    ensures Absorb(stack, result, format).0 == stack[..|Absorb(stack, result, format).0|]
  {
    if stack != [] && IsChild(stack[|stack| - 1], result) {
      var next := result.(errors := Listed(Moved(stack[|stack| - 1], format) + ErrorsOf(result)));
      if !IsRef(next) {
        AbsorbKeepsFields(stack[..|stack| - 1], next, format);
      }
    }
  }

  /** What a run of popped entries contributes to the errors, bottom of the stack first:
      each entry, followed under BASIC by the errors it had gathered. */
  function MovedAll(entries: seq<Node>, format: Format): seq<Node>
    decreases |entries|
  {
    if entries == [] then []
    else MovedAll(entries[..|entries| - 1], format) + Moved(entries[|entries| - 1], format)
  }

  /** Outside BASIC nothing is spliced: the popped entries contribute themselves. */
  lemma {:induction false} MovedAllOutsideBasic(entries: seq<Node>, format: Format)
    requires format != Basic
    ensures MovedAll(entries, format) == entries
    decreases |entries|
  {
    if entries != [] {
      MovedAllOutsideBasic(entries[..|entries| - 1], format);
      assert entries[..|entries| - 1] + [entries[|entries| - 1]] == entries;
    }
  }

  /** One more popped entry on top contributes after the ones below it. */
  lemma MovedAllSnoc(popped: seq<Node>, top: Node, format: Format)
    ensures MovedAll(popped + [top], format) == MovedAll(popped, format) + Moved(top, format)
  {
    assert (popped + [top])[..|popped|] == popped;
  }

  /** The popped entries are a suffix of the stack and become the front of the new
      result's errors in the order they had on the stack, which is the order they were
      emitted in; under BASIC each is followed by the errors it had gathered. */
  lemma {:induction false} AbsorbSplices(stack: seq<Node>, result: Node, format: Format)
    requires result.errors.Listed?
    ensures |Absorb(stack, result, format).0| <= |stack|
    ensures ErrorsOf(Absorb(stack, result, format).1)
         == MovedAll(stack[|Absorb(stack, result, format).0|..], format) + ErrorsOf(result)
    decreases |stack|
  {
    AbsorbKeepsFields(stack, result, format);
    if stack != [] && IsChild(stack[|stack| - 1], result) {
      var next := result.(errors := Listed(Moved(stack[|stack| - 1], format) + ErrorsOf(result)));
      if IsRef(next) {
        SpliceRef(stack, result, format);
      } else {
        AbsorbSplices(stack[..|stack| - 1], next, format);
        SplicePop(stack, result, format, next, |Absorb(stack[..|stack| - 1], next, format).0|);
      }
    } else {
      assert stack[|stack|..] == [];
    }
  }

  /** A reference result absorbs the one child on top and stops. */
  lemma SpliceRef(stack: seq<Node>, result: Node, format: Format)
    requires stack != [] && IsChild(stack[|stack| - 1], result)
    requires IsRef(result.(errors := Listed(Moved(stack[|stack| - 1], format) + ErrorsOf(result))))
    ensures |Absorb(stack, result, format).0| + 1 == |stack|
    ensures ErrorsOf(Absorb(stack, result, format).1)
         == MovedAll(stack[|stack| - 1..], format) + ErrorsOf(result)
  {
    var top := stack[|stack| - 1];
    assert stack[|stack| - 1..] == [] + [top];
    MovedAllSnoc([], top, format);
  }

  /** The entries popped from `k` up: those below the top, then the top. */
  lemma MovedAllPop(stack: seq<Node>, k: nat, format: Format)
    requires k < |stack|
    ensures MovedAll(stack[k..], format)
         == MovedAll(stack[..|stack| - 1][k..], format) + Moved(stack[|stack| - 1], format)
  {
    var popped := stack[..|stack| - 1][k..];
    assert stack[k..] == popped + [stack[|stack| - 1]];
    MovedAllSnoc(popped, stack[|stack| - 1], format);
  }

  /** Any other result absorbs the child on top and goes on with the shorter stack. */
  lemma SplicePop(stack: seq<Node>, result: Node, format: Format, next: Node, k: nat)
    requires stack != [] && IsChild(stack[|stack| - 1], result)
    requires next == result.(errors := Listed(Moved(stack[|stack| - 1], format) + ErrorsOf(result)))
    requires !IsRef(next)
    requires k == |Absorb(stack[..|stack| - 1], next, format).0| && k <= |stack| - 1
    requires ErrorsOf(Absorb(stack[..|stack| - 1], next, format).1)
           == MovedAll(stack[..|stack| - 1][k..], format) + ErrorsOf(next)
    ensures ErrorsOf(Absorb(stack, result, format).1) == MovedAll(stack[k..], format) + ErrorsOf(result)
  {
    var popped := MovedAll(stack[..|stack| - 1][k..], format);
    var moved := Moved(stack[|stack| - 1], format);
    var inner := ErrorsOf(Absorb(stack[..|stack| - 1], next, format).1);
    assert ErrorsOf(Absorb(stack, result, format).1) == inner by {
      assert Absorb(stack, result, format) == Absorb(stack[..|stack| - 1], next, format);
    }
    assert inner == (popped + moved) + ErrorsOf(result) by {
      assert popped + (moved + ErrorsOf(result)) == (popped + moved) + ErrorsOf(result);
    }
    MovedAllPop(stack, k, format);
  }

  /** Outside BASIC, the popped entries become the new result's errors in the order they
      had on the stack: stack and errors together keep their order. */
  lemma AbsorbKeepsOrder(stack: seq<Node>, result: Node, format: Format)
    requires format != Basic && result.errors.Listed?
    ensures Absorb(stack, result, format).0 + ErrorsOf(Absorb(stack, result, format).1)
         == stack + ErrorsOf(result)
  {
    AbsorbKeepsFields(stack, result, format);
    AbsorbSplices(stack, result, format);
    var rest := Absorb(stack, result, format).0;
    MovedAllOutsideBasic(stack[|rest|..], format);
    assert stack[..|rest|] + stack[|rest|..] == stack;
  }

  /** Every popped entry is a child of the result it was absorbed into. */
  lemma {:induction false} AbsorbPopsOnlyChildren(stack: seq<Node>, result: Node, format: Format)
    ensures forall i :: |Absorb(stack, result, format).0| <= i < |stack| ==> IsChild(stack[i], result)
  {
    var n := |stack|;
    if n > 0 && IsChild(stack[n - 1], result) {
      var next := result.(errors := Listed(Moved(stack[n - 1], format) + ErrorsOf(result)));
      if !IsRef(next) {
        var shorter := stack[..n - 1];
        AbsorbPopsOnlyChildren(shorter, next, format);
        assert Absorb(stack, result, format) == Absorb(shorter, next, format);
        var k := |Absorb(shorter, next, format).0|;
        forall i | k <= i < n
          ensures IsChild(stack[i], result)
        {
          if i < n - 1 {
            assert stack[i] == shorter[i] && IsChild(shorter[i], next);
          }
        }
      }
    }
  }

  /** Popping stops at the bottom of the stack, at a non-child, or at a reference result. */
  lemma {:induction false} AbsorbStopsAtNonChild(stack: seq<Node>, result: Node, format: Format)
    ensures var rest := Absorb(stack, result, format).0;
      rest == [] || !IsChild(rest[|rest| - 1], result) || IsRef(result)
  {
    var n := |stack|;
    if n > 0 && IsChild(stack[n - 1], result) {
      var next := result.(errors := Listed(Moved(stack[n - 1], format) + ErrorsOf(result)));
      if !IsRef(next) {
        AbsorbStopsAtNonChild(stack[..n - 1], next, format);
        assert Absorb(stack, result, format) == Absorb(stack[..n - 1], next, format);
      }
    }
  }

  /** Only children are popped; popping stops at a non-child, at the bottom of the stack,
      or after the single entry a reference result absorbs. */
  lemma AbsorbPopsChildren(stack: seq<Node>, result: Node, format: Format)
    requires result.errors.Listed?
    ensures var (rest, r) := Absorb(stack, result, format);
      |rest| <= |stack| && rest == stack[..|rest|]
      && (forall i :: |rest| <= i < |stack| ==> IsChild(stack[i], result))
      && (IsRef(result) ==> |rest| + 1 >= |stack|)
      && (rest == [] || !IsChild(rest[|rest| - 1], result) || IsRef(result))
  {
    AbsorbKeepsFields(stack, result, format);
    AbsorbPopsOnlyChildren(stack, result, format);
    AbsorbStopsAtNonChild(stack, result, format);
  }

  /** A result with no errors field left, as BASIC files its nested results. */
  predicate Flat(n: Node) {
    forall c :: c in ErrorsOf(n) ==> c.errors.Removed?
  }

  lemma {:induction false} AbsorbBasicFlat(stack: seq<Node>, result: Node)
    requires forall n :: n in stack ==> Flat(n)
    requires Flat(result)
    ensures Flat(Absorb(stack, result, Basic).1)
  {
    if stack != [] && IsChild(stack[|stack| - 1], result) {
      var next := result.(errors := Listed(Moved(stack[|stack| - 1], Basic) + ErrorsOf(result)));
      assert stack[|stack| - 1] in stack;
      assert Flat(next);
      if !IsRef(next) {
        AbsorbBasicFlat(stack[..|stack| - 1], next);
      }
    }
  }

  /** BASIC never nests more than one level: on the stack and in every output, the
      results listed under a result have no errors of their own. */
  lemma {:induction false} BasicIsOneLevel(events: seq<Event>)
    ensures forall n :: n in Run(Basic, events).stack ==> Flat(n)
    ensures Run(Basic, events).output.Some? ==> Flat(Run(Basic, events).output.value)
    decreases |events|
  {
    if events != [] {
      var prev := Run(Basic, events[..|events| - 1]);
      BasicIsOneLevel(events[..|events| - 1]);
      var e := events[|events| - 1];
      AbsorbBasicFlat(prev.stack, Fresh(e));
      AbsorbPopsChildren(prev.stack, Fresh(e), Basic);
      var rest := Absorb(prev.stack, Fresh(e), Basic).0;
      assert forall n :: n in rest ==> n in prev.stack;
    }
  }

  /** FLAG keeps nothing on the stack, so every result it outputs has an empty error list. */
  lemma {:induction false} FlagHasNoErrors(events: seq<Event>)
    ensures Run(Flag, events).stack == []
    ensures Run(Flag, events).output.Some? ==> Run(Flag, events).output.value.errors == Listed([])
    decreases |events|
  {
    if events != [] {
      FlagHasNoErrors(events[..|events| - 1]);
    }
  }

  /** A failed result all of whose nested results failed too. */
  predicate InvalidTree(n: Node)
    decreases n
  {
    match n
    case Node(_, _, _, valid, Listed(es)) => !valid && forall i :: 0 <= i < |es| ==> InvalidTree(es[i])
    case Node(_, _, _, valid, Removed) => !valid
  }

  lemma {:induction false} AbsorbInvalid(stack: seq<Node>, result: Node, format: Format)
    requires format == Basic || format == Detailed
    requires forall n :: n in stack ==> InvalidTree(n)
    requires forall c :: c in ErrorsOf(result) ==> InvalidTree(c)
    ensures forall c :: c in ErrorsOf(Absorb(stack, result, format).1) ==> InvalidTree(c)
  {
    if stack != [] && IsChild(stack[|stack| - 1], result) {
      var top := stack[|stack| - 1];
      assert top in stack;
      var next := result.(errors := Listed(Moved(top, format) + ErrorsOf(result)));
      assert InvalidTree(top.(errors := Removed));
      assert forall c :: c in ErrorsOf(top) ==> InvalidTree(c) by {
        forall c | c in ErrorsOf(top) ensures InvalidTree(c) {
          var i :| 0 <= i < |ErrorsOf(top)| && ErrorsOf(top)[i] == c;
        }
      }
      assert forall c :: c in ErrorsOf(next) ==> InvalidTree(c);
      if !IsRef(next) {
        AbsorbInvalid(stack[..|stack| - 1], next, format);
      }
    }
  }

  /** BASIC and DETAILED keep failures only: every stacked result failed, and every
      result nested in an output failed, all the way down. */
  lemma {:induction false} FailuresOnly(format: Format, events: seq<Event>)
    requires format == Basic || format == Detailed
    ensures forall n :: n in Run(format, events).stack ==> InvalidTree(n)
    ensures Run(format, events).output.Some? ==>
      forall c :: c in ErrorsOf(Run(format, events).output.value) ==> InvalidTree(c)
    decreases |events|
  {
    if events != [] {
      var prev := Run(format, events[..|events| - 1]);
      FailuresOnly(format, events[..|events| - 1]);
      var e := events[|events| - 1];
      AbsorbInvalid(prev.stack, Fresh(e), format);
      AbsorbPopsChildren(prev.stack, Fresh(e), format);
      var (rest, r) := Absorb(prev.stack, Fresh(e), format);
      assert forall n :: n in rest ==> n in prev.stack;
      AbsorbKeepsFields(prev.stack, Fresh(e), format);
      if Kept(format, r) {
        assert InvalidTree(r) by {
          assert forall i :: 0 <= i < |ErrorsOf(r)| ==> ErrorsOf(r)[i] in ErrorsOf(r);
        }
      }
    }
  }

  /** The output is the result of the last event: its keyword, locations and validity. */
  lemma OutputIsLast(format: Format, events: seq<Event>)
    requires events != []
    ensures var e := events[|events| - 1];
      var out := Run(format, events).output;
      out.Some? && out.value.keyword == e.keyword && out.value.valid == e.valid
      && out.value.absoluteKeywordLocation == e.absoluteKeywordLocation
      && out.value.instanceLocation == e.instanceLocation
  {
    var e := events[|events| - 1];
    AbsorbKeepsFields(Run(format, events[..|events| - 1]).stack, Fresh(e), format);
  }

  /** The handler object: `resultStack` and `output[0]` of one `outputHandler` closure. */
  class OutputHandler {
    const format: Format
    var stack: seq<Node>
    var output: Option<Node>

    constructor (format: Format)
      ensures this.format == format && stack == [] && output == None
    {
      this.format := format;
      stack := [];
      output := None;
    }

    /** The subscriber body: absorb the children on the stack, keep the result when the
        format says so, and make it the output. */
    method Receive(e: Event)
      modifies this
      ensures State(stack, output) == Handle(old(State(stack, output)), e, format)
    {
      var result := Fresh(e);
      ghost var goal := Absorb(stack, result, format);
      while |stack| > 0 && IsChild(stack[|stack| - 1], result)
        invariant Absorb(stack, result, format) == goal
        decreases |stack|
      {
        var top := stack[|stack| - 1];
        ghost var moved := Moved(top, format);
        ghost var before := (stack, result);
        stack := stack[..|stack| - 1];
        var errors: seq<Node> := [];
        if format == Basic {
          errors := ErrorsOf(top);
          top := top.(errors := Removed);
        }
        result := result.(errors := Listed([top] + errors + ErrorsOf(result)));
        assert [top] + errors == moved;
        assert result == before.1.(errors := Listed(moved + ErrorsOf(before.1)));
        if IsRef(result) {
          assert goal == (stack, result);
          break;
        }
      }
      if format == Verbose || (format != Flag && !result.valid) {
        stack := stack + [result];
      }
      output := Some(result);
    }
  }

  /** One subscription of `validate`'s interpreter: a fresh handler receives the events in
      publication order, and what it last set as `output[0]` is returned. */
  method Deliver(format: Format, events: seq<Event>) returns (output: Option<Node>)
    ensures output == Run(format, events).output
  {
    var handler := new OutputHandler(format);
    var i := 0;
    while i < |events|
      invariant 0 <= i <= |events|
      invariant handler.format == format
      invariant State(handler.stack, handler.output) == Run(format, events[..i])
    {
      handler.Receive(events[i]);
      assert events[..i + 1][..i] == events[..i];
      i := i + 1;
    }
    assert events[..i] == events;
    output := handler.output;
  }
}
