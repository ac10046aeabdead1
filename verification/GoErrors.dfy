/** Error values, errors.Is, and how the consumer settles a delivery whose handler failed. */
module GoErrors {
  import opened Basics

  /** ParseJSON is spec.ErrParseJSON and NoMessageType is ErrNoMessageTypeForRouteKey; the code only
      compares errors with these two. Wrapped is fmt.Errorf with one %w, Joined is errors.Join or
      fmt.Errorf with several. */
  datatype GoError =
    | ParseJSON
    | NoMessageType
    | Leaf(text: string)
    | Wrapped(text: string, inner: GoError)
    | Joined(errs: seq<GoError>)

  predicate IsSentinel(e: GoError) { e.ParseJSON? || e.NoMessageType? }

  /** errors.Is against a sentinel: the error itself, then depth first through what it wraps. */
  predicate Is(e: GoError, target: GoError)
    requires IsSentinel(target)
  {
    e == target ||
    match e
    case Wrapped(_, inner) => Is(inner, target)
    case Joined(errs) => exists i :: 0 <= i < |errs| && Is(errs[i], target)
    case _ => false
  }

  /** The node of an error tree reached by following child numbers from the root. */
  function NodeAt(e: GoError, path: seq<nat>): Option<GoError>
    decreases |path|
  {
    if path == [] then Some(e)
    else match e
      case Wrapped(_, inner) => if path[0] == 0 then NodeAt(inner, path[1..]) else None
      case Joined(errs) => if path[0] < |errs| then NodeAt(errs[path[0]], path[1..]) else None
      case _ => None
  }

  ghost predicate Contains(e: GoError, target: GoError) {
    exists path :: NodeAt(e, path) == Some(target)
  }

  lemma {:induction false} IsFindsNode(e: GoError, target: GoError) returns (path: seq<nat>)
    requires IsSentinel(target) && Is(e, target)
    ensures NodeAt(e, path) == Some(target)
  {
    if e == target {
      path := [];
    } else {
      match e
      case Wrapped(_, inner) =>
        var rest := IsFindsNode(inner, target);
        path := [0] + rest;
        assert path[1..] == rest;
      case Joined(errs) =>
        var i :| 0 <= i < |errs| && Is(errs[i], target);
        var rest := IsFindsNode(errs[i], target);
        path := [i] + rest;
        assert path[1..] == rest;
    }
  }

  lemma {:induction false} NodeMakesIs(e: GoError, target: GoError, path: seq<nat>)
    requires IsSentinel(target) && NodeAt(e, path) == Some(target)
    ensures Is(e, target)
    decreases |path|
  {
    if path != [] {
      match e
      case Wrapped(_, inner) => NodeMakesIs(inner, target, path[1..]);
      case Joined(errs) => NodeMakesIs(errs[path[0]], target, path[1..]);
    }
  }

  /** errors.Is finds a sentinel exactly when it is a node of the tree, at any depth. */
  lemma IsExact(e: GoError, target: GoError)
    requires IsSentinel(target)
    ensures Is(e, target) <==> Contains(e, target)
  {
    if Is(e, target) {
      var path := IsFindsNode(e, target);
    }
    if Contains(e, target) {
      var path :| NodeAt(e, path) == Some(target);
      NodeMakesIs(e, target, path);
    }
  }

  /** What happens to a delivery. */
  datatype Verdict =
    | Acknowledge
    | Requeue           // Nack(false, true)
    | DropUnparsable    // Nack(false, false)
    | DropUntyped       // Reject(false), handler had no type for the key
    | DropUnhandled     // Reject(false), no handler for the key

  /** rejectOrNack */
  function Disposition(err: GoError): Verdict {
    if Is(err, ParseJSON) then DropUnparsable
    else if Is(err, NoMessageType) then DropUntyped
    else Requeue
  }

  /** What one turn of the delivery loop did with a delivery. */
  datatype Handling = NoHandler | Ran(err: Option<GoError>)

  function VerdictOf(h: Handling): Verdict {
    match h
    case NoHandler => DropUnhandled
    case Ran(None) => Acknowledge
    case Ran(Some(err)) => Disposition(err)
  }

  /** The settlement of a failed handling depends on nothing but which sentinels occur in the tree. */
  lemma DispositionExact(err: GoError)
    ensures Disposition(err) == DropUnparsable <==> Contains(err, ParseJSON)
    ensures Disposition(err) == DropUntyped <==> Contains(err, NoMessageType) && !Contains(err, ParseJSON)
    ensures Disposition(err) == Requeue <==> !Contains(err, ParseJSON) && !Contains(err, NoMessageType)
  {
    IsExact(err, ParseJSON);
    IsExact(err, NoMessageType);
  }

  /** err inside any number of fmt.Errorf("...%w") layers. */
  function WrapAll(texts: seq<string>, err: GoError): GoError {
    if texts == [] then err else Wrapped(texts[0], WrapAll(texts[1..], err))
  }

  /** Wrapping never changes the settlement. */
  lemma {:induction false} DispositionStable(texts: seq<string>, err: GoError)
    ensures Disposition(WrapAll(texts, err)) == Disposition(err)
  {
    if texts != [] {
      DispositionStable(texts[1..], err);
    }
  }

  // ---------------------------------------------------------------------------------------------
  // Where handler errors come from
  // ---------------------------------------------------------------------------------------------

  /** newWrappedHandler: `raw` is the any/json.RawMessage case, which skips unmarshalling; `parse` is
      the error text of json.Unmarshal, if it fails. */
  function TypedHandler(raw: bool, parse: Option<string>, result: Option<GoError>): Option<GoError> {
    if !raw && parse.Some? then Some(Wrapped(parse.value, ParseJSON)) else result
  }

  /** TypeMappingHandler; `mapper` None is a nil TypeMapper, Some(false) an unknown routing key. */
  function TypeMapped(mapper: Option<bool>, parse: Option<string>, result: Option<GoError>): Option<GoError> {
    if mapper.None? then Some(Leaf("TypeMapper is nil"))
    else if !mapper.value then Some(NoMessageType)
    else if parse.Some? then Some(Wrapped(parse.value, ParseJSON))
    else result
  }

  /** With either wrapper, a delivery whose payload does not parse or has no type is dropped and the
      handler's own result is not consulted; otherwise the handler's result alone decides. */
  lemma WrappersDecide(raw: bool, mapper: Option<bool>, parse: Option<string>, result: Option<GoError>)
    ensures
      var typed := VerdictOf(Ran(TypedHandler(raw, parse, result)));
      if raw || parse.None? then typed == VerdictOf(Ran(result)) else typed == DropUnparsable
    ensures
      var mapped := VerdictOf(Ran(TypeMapped(mapper, parse, result)));
      if mapper.None? then mapped == Requeue
      else if !mapper.value then mapped == DropUntyped
      else if parse.Some? then mapped == DropUnparsable
      else mapped == VerdictOf(Ran(result))
  {
    assert Is(ParseJSON, ParseJSON);
  }
}
