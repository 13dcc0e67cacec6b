/**
 * The error-response helpers that every controller of the service host can call.
 * Each helper builds a BusinessError body and wraps it in an HTTP result: 400 (bad
 * request) for every helper except FatalServerError, which answers 500.
 */
module ControllerExtensions {
  import opened Wrappers
  import ErrorCodes

  const BadRequestStatus: int := 400
  const InternalServerErrorStatus: int := 500

  /** A caught exception; only its identity is passed on, its message is read by BusinessError. */
  datatype Exception = Exception(message: string)

  /** A CLR type, known here by its `Name`. */
  datatype ClrType = ClrType(name: string)

  /** How the BusinessError body was constructed: which factory, with which message or exception. */
  datatype Origin =
    | FromMessage(text: Option<string>)
    | FromException(source: Exception)

  /**
   * The error body as the helpers build it: the factory and its arguments, the error code
   * passed (None when the call site passes none), the fatal flag, and the entries the helper
   * itself adds to the body's ErrorInfo dictionary after construction.
   */
  datatype BusinessError = BusinessError(
    origin: Origin,
    errorCode: Option<int>,
    isFatalError: bool,
    addedInfo: map<string, seq<string>>)

  /** An MVC action result reduced to its status code and body. */
  datatype ActionResult = ActionResult(status: int, body: BusinessError)

  function BadRequest(body: BusinessError): ActionResult
  {
    ActionResult(BadRequestStatus, body)
  }

  /** A body built by `BusinessError.FromMessage(message, errorCode: code)`. */
  function MessageError(message: string, code: int): BusinessError
  {
    BusinessError(FromMessage(Some(message)), Some(code), false, map[])
  }

  /** `Dictionary.TryAdd`: adds the entry only when the key is absent. */
  function TryAdd(info: map<string, seq<string>>, key: string, value: seq<string>): (r: map<string, seq<string>>)
    ensures key in r && r.Keys == info.Keys + {key}
    ensures r[key] == if key in info then info[key] else value
    ensures forall k :: k in info ==> r[k] == info[k]
  {
    if key in info then info else info[key := value]
  }

  // ---------------------------------------------------------------------------
  // Model state
  // ---------------------------------------------------------------------------

  /** One key of the request's model state with the messages of its errors, in order. */
  datatype ModelStateEntry = ModelStateEntry(key: string, errors: seq<string>)

  /** The model-state dictionary, its keys in enumeration order. */
  type ModelState = seq<ModelStateEntry>

  /** The rendering `$"{key}: {message}"` of one model-state error. */
  function KeyedMessage(key: string, message: string): string
  {
    key + ": " + message
  }

  /** The errors of one key, each rendered with that key. */
  function KeyedMessages(key: string, errors: seq<string>): (r: seq<string>)
    ensures |r| == |errors|
    ensures forall j :: 0 <= j < |errors| ==> r[j] == KeyedMessage(key, errors[j])
  {
    if errors == [] then [] else [KeyedMessage(key, errors[0])] + KeyedMessages(key, errors[1..])
  }

  /** The number of (key, error) pairs in a model state. */
  function ErrorCount(ms: ModelState): nat
  {
    if ms == [] then 0 else |ms[0].errors| + ErrorCount(ms[1..])
  }

  /** The number of errors held by the keys before position i. */
  function ErrorsBefore(ms: ModelState, i: nat): nat
    requires i <= |ms|
  {
    ErrorCount(ms[..i])
  }

  /** The `SelectMany` over the model-state keys: every error of every key, rendered. */
  function ModelStateMessages(ms: ModelState): (r: seq<string>)
    ensures |r| == ErrorCount(ms)
  {
    if ms == [] then [] else KeyedMessages(ms[0].key, ms[0].errors) + ModelStateMessages(ms[1..])
  }

  const ModelStateMessage: string := "Request model state is invalid"
  const ErrorMessagesKey: string := "errorMessages"

  /** ModelStateError: 400 with the flattened model-state messages under "errorMessages". */
  function ModelStateError(ms: ModelState): (r: ActionResult)
    ensures r.status == BadRequestStatus
    ensures r.body.origin == FromMessage(Some(ModelStateMessage))
    ensures r.body.errorCode == Some(ErrorCodes.ModelStateError) && !r.body.isFatalError
    ensures r.body.addedInfo.Keys == {ErrorMessagesKey}
    ensures r.body.addedInfo[ErrorMessagesKey] == ModelStateMessages(ms)
  {
    var result := MessageError(ModelStateMessage, ErrorCodes.ModelStateError);
    BadRequest(result.(addedInfo := TryAdd(result.addedInfo, ErrorMessagesKey, ModelStateMessages(ms))))
  }

  lemma {:induction false} ErrorCountAppend(a: ModelState, b: ModelState)
    ensures ErrorCount(a + b) == ErrorCount(a) + ErrorCount(b)
  {
    if a != [] {
      assert (a + b)[1..] == a[1..] + b;
      ErrorCountAppend(a[1..], b);
    } else {
      assert a + b == b;
    }
  }

  /** Flattening distributes over concatenation of model states. */
  lemma {:induction false} ModelStateMessagesAppend(a: ModelState, b: ModelState)
    ensures ModelStateMessages(a + b) == ModelStateMessages(a) + ModelStateMessages(b)
  {
    if a == [] {
      assert a + b == b;
    } else {
      assert (a + b)[0] == a[0];
      assert (a + b)[1..] == a[1..] + b;
      ModelStateMessagesAppend(a[1..], b);
    }
  }

  /** The messages of key i occupy the block that starts where those of key i - 1 end. */
  lemma ErrorsBeforeNext(ms: ModelState, i: nat)
    requires i < |ms|
    ensures ErrorsBefore(ms, i + 1) == ErrorsBefore(ms, i) + |ms[i].errors|
  {
    assert ms[..i + 1] == ms[..i] + [ms[i]];
    ErrorCountAppend(ms[..i], [ms[i]]);
    assert [ms[i]][1..] == [];
  }

  /** Keys are emitted in order: every message of key i precedes every message of a later key. */
  lemma {:induction false} ErrorsBeforeOrdered(ms: ModelState, i: nat, i': nat)
    requires i < i' <= |ms|
    ensures ErrorsBefore(ms, i) + |ms[i].errors| <= ErrorsBefore(ms, i')
    decreases i' - i
  {
    ErrorsBeforeNext(ms, i);
    if i + 1 < i' {
      ErrorsBeforeOrdered(ms, i + 1, i');
    }
  }

  /** The message at position ErrorsBefore(ms, i) + j is error j of key i, rendered with its key. */
  lemma {:induction false} ModelStateMessageAt(ms: ModelState, i: nat, j: nat)
    requires i < |ms| && j < |ms[i].errors|
    ensures ErrorsBefore(ms, i) + j < |ModelStateMessages(ms)|
    ensures ModelStateMessages(ms)[ErrorsBefore(ms, i) + j] == KeyedMessage(ms[i].key, ms[i].errors[j])
  {
    ErrorsBeforeOrdered(ms, i, |ms|);
    assert ms[..|ms|] == ms;
    if i == 0 {
      assert ms[..0] == [];
    } else {
      ModelStateMessageAt(ms[1..], i - 1, j);
      assert ms[..i] == [ms[0]] + ms[1..][..i - 1];
      ErrorCountAppend([ms[0]], ms[1..][..i - 1]);
      assert [ms[0]][1..] == [];
    }
  }

  /** Conversely, every message lies in the block of some key (of only one, by ModelStateBlocksDisjoint). */
  lemma {:induction false} ModelStateMessageSource(ms: ModelState, k: nat)
    requires k < |ModelStateMessages(ms)|
    ensures exists i: nat :: i < |ms| && ErrorsBefore(ms, i) <= k < ErrorsBefore(ms, i) + |ms[i].errors|
  {
    if k < |ms[0].errors| {
      assert ms[..0] == [];
      assert ErrorsBefore(ms, 0) <= k < ErrorsBefore(ms, 0) + |ms[0].errors|;
    } else {
      var rest := ms[1..];
      ModelStateMessageSource(rest, k - |ms[0].errors|);
      var i: nat :| i < |rest| && ErrorsBefore(rest, i) <= k - |ms[0].errors| < ErrorsBefore(rest, i) + |rest[i].errors|;
      assert ms[..i + 1] == [ms[0]] + rest[..i];
      ErrorCountAppend([ms[0]], rest[..i]);
      assert [ms[0]][1..] == [];
      assert ErrorsBefore(ms, i + 1) == |ms[0].errors| + ErrorsBefore(rest, i);
      assert ErrorsBefore(ms, i + 1) <= k < ErrorsBefore(ms, i + 1) + |ms[i + 1].errors|;
    }
  }

  /** The blocks of distinct keys do not overlap, so each message has exactly one source key. */
  lemma ModelStateBlocksDisjoint(ms: ModelState, i: nat, i': nat, k: nat)
    requires i < |ms| && i' < |ms|
    requires ErrorsBefore(ms, i) <= k < ErrorsBefore(ms, i) + |ms[i].errors|
    requires ErrorsBefore(ms, i') <= k < ErrorsBefore(ms, i') + |ms[i'].errors|
    ensures i == i'
  {
    if i < i' {
      ErrorsBeforeOrdered(ms, i, i');
    } else if i' < i {
      ErrorsBeforeOrdered(ms, i', i);
    }
  }

  // ---------------------------------------------------------------------------
  // General errors
  // ---------------------------------------------------------------------------

  const DefaultGeneralErrorMessage: string := "General error."

  /** GeneralError(Exception): 400 with a body built from the exception, code GeneralError. */
  function GeneralErrorFromException(e: Exception): (r: ActionResult)
    ensures r.status == BadRequestStatus
    ensures r.body.origin == FromException(e)
    ensures r.body.errorCode == Some(ErrorCodes.GeneralError) && !r.body.isFatalError
    ensures r.body.addedInfo == map[]
  {
    BadRequest(BusinessError(FromException(e), Some(ErrorCodes.GeneralError), false, map[]))
  }

  /** GeneralError(string): 400 with the caller's message (possibly null), code GeneralError. */
  function GeneralErrorFromMessage(message: Option<string> := Some(DefaultGeneralErrorMessage)): (r: ActionResult)
    ensures r.status == BadRequestStatus
    ensures r.body.origin == FromMessage(message)
    ensures r.body.errorCode == Some(ErrorCodes.GeneralError) && !r.body.isFatalError
    ensures r.body.addedInfo == map[]
  {
    BadRequest(BusinessError(FromMessage(message), Some(ErrorCodes.GeneralError), false, map[]))
  }

  /** Called without a message, GeneralError answers "General error.". */
  lemma GeneralErrorDefaultMessage()
    ensures GeneralErrorFromMessage().body.origin.text == Some("General error.")
  {
  }

  // ---------------------------------------------------------------------------
  // Parameter errors
  // ---------------------------------------------------------------------------

  const ParameterMessageHead: string := "Request parameter '"
  const InvalidParameterTail: string := "' is invalid."
  const MissingParameterTail: string := "' is missing."

  /** InvalidParameterError: 400, code ArgumentInvalidError, the name quoted when there is one. */
  function InvalidParameterError(parameterName: Option<string> := None): (r: ActionResult)
    ensures r.status == BadRequestStatus
    ensures r.body.errorCode == Some(ErrorCodes.ArgumentInvalidError) && !r.body.isFatalError
    ensures r.body.addedInfo == map[]
    ensures IsNullOrEmpty(parameterName) ==> r.body.origin == FromMessage(Some("Invalid request parameter."))
    ensures !IsNullOrEmpty(parameterName) ==>
      r.body.origin == FromMessage(Some("Request parameter '" + parameterName.value + "' is invalid."))
  {
    BadRequest(MessageError(
      if IsNullOrEmpty(parameterName) then "Invalid request parameter."
      else ParameterMessageHead + parameterName.value + InvalidParameterTail,
      ErrorCodes.ArgumentInvalidError))
  }

  /** MissingParameterError: 400, code ArgumentMissingError, the name quoted when there is one. */
  function MissingParameterError(parameterName: Option<string> := None): (r: ActionResult)
    ensures r.status == BadRequestStatus
    ensures r.body.errorCode == Some(ErrorCodes.ArgumentMissingError) && !r.body.isFatalError
    ensures r.body.addedInfo == map[]
    ensures IsNullOrEmpty(parameterName) ==> r.body.origin == FromMessage(Some("A required request parameter is missing."))
    ensures !IsNullOrEmpty(parameterName) ==>
      r.body.origin == FromMessage(Some("Request parameter '" + parameterName.value + "' is missing."))
  {
    BadRequest(MessageError(
      if IsNullOrEmpty(parameterName) then "A required request parameter is missing."
      else ParameterMessageHead + parameterName.value + MissingParameterTail,
      ErrorCodes.ArgumentMissingError))
  }

  /** Reads the parameter name back out of a "Request parameter '<name><tail>" message. */
  function ParameterNameIn(message: string, tail: string): (name: Option<string>)
    ensures name.Some? ==> message == ParameterMessageHead + name.value + tail
  {
    var h, t := |ParameterMessageHead|, |tail|;
    if h + t <= |message| && message[..h] == ParameterMessageHead && message[|message| - t..] == tail then
      var name := message[h..|message| - t];
      assert message == message[..h] + name + message[|message| - t..];
      Some(name)
    else
      None
  }

  lemma ParameterNameInRoundTrip(name: string, tail: string)
    ensures ParameterNameIn(ParameterMessageHead + name + tail, tail) == Some(name)
  {
  }

  /** The invalid-parameter message names the parameter exactly when one was given, and it can be read back. */
  lemma InvalidParameterNameRecoverable(parameterName: Option<string>)
    ensures ParameterNameIn(InvalidParameterError(parameterName).body.origin.text.value, InvalidParameterTail)
      == if IsNullOrEmpty(parameterName) then None else parameterName
  {
    if !IsNullOrEmpty(parameterName) {
      ParameterNameInRoundTrip(parameterName.value, InvalidParameterTail);
    }
  }

  /** The missing-parameter message names the parameter exactly when one was given, and it can be read back. */
  lemma MissingParameterNameRecoverable(parameterName: Option<string>)
    ensures ParameterNameIn(MissingParameterError(parameterName).body.origin.text.value, MissingParameterTail)
      == if IsNullOrEmpty(parameterName) then None else parameterName
  {
    if !IsNullOrEmpty(parameterName) {
      ParameterNameInRoundTrip(parameterName.value, MissingParameterTail);
    }
  }

  // ---------------------------------------------------------------------------
  // Object errors
  // ---------------------------------------------------------------------------

  const WithKeyHead: string := " with key '"
  const AlreadyExistsTail: string := " already exists."
  const NotFoundTail: string := " not found."

  /** The message prefix: the object type, or "Object" when the type is null or empty. */
  function ObjectPrefix(objectType: Option<string>): (p: string)
    ensures p != []
    ensures IsNullOrEmpty(objectType) ==> p == "Object"
    ensures !IsNullOrEmpty(objectType) ==> p == objectType.value
  {
    if IsNullOrEmpty(objectType) then "Object" else objectType.value
  }

  /**
   * The message shared by the object helpers: "<prefix><tail>" without a key,
   * "<prefix> with key '<key>'<tail>" with one.
   */
  function ObjectMessage(objectType: Option<string>, objectKey: Option<string>, tail: string): string
  {
    if IsNullOrEmpty(objectKey) then ObjectPrefix(objectType) + tail
    else ObjectPrefix(objectType) + WithKeyHead + objectKey.value + "'" + tail
  }

  /** ObjectAlreadyExistsError(string, string): 400, code ObjectAlreadyExistsError. */
  function ObjectAlreadyExistsError(objectType: Option<string> := None, objectKey: Option<string> := None): (r: ActionResult)
    ensures r.status == BadRequestStatus
    ensures r.body.errorCode == Some(ErrorCodes.ObjectAlreadyExistsError) && !r.body.isFatalError
    ensures r.body.addedInfo == map[]
    ensures r.body.origin == FromMessage(Some(ObjectMessage(objectType, objectKey, AlreadyExistsTail)))
    ensures IsNullOrEmpty(objectKey) ==>
      r.body.origin.text.value == ObjectPrefix(objectType) + " already exists."
    ensures !IsNullOrEmpty(objectKey) ==>
      r.body.origin.text.value == ObjectPrefix(objectType) + " with key '" + objectKey.value + "' already exists."
  {
    BadRequest(MessageError(ObjectMessage(objectType, objectKey, AlreadyExistsTail), ErrorCodes.ObjectAlreadyExistsError))
  }

  /** ObjectNotFoundError(string, string): 400, code ObjectNotFoundError. */
  function ObjectNotFoundError(objectType: Option<string> := None, objectKey: Option<string> := None): (r: ActionResult)
    ensures r.status == BadRequestStatus
    ensures r.body.errorCode == Some(ErrorCodes.ObjectNotFoundError) && !r.body.isFatalError
    ensures r.body.addedInfo == map[]
    ensures r.body.origin == FromMessage(Some(ObjectMessage(objectType, objectKey, NotFoundTail)))
    ensures IsNullOrEmpty(objectKey) ==>
      r.body.origin.text.value == ObjectPrefix(objectType) + " not found."
    ensures !IsNullOrEmpty(objectKey) ==>
      r.body.origin.text.value == ObjectPrefix(objectType) + " with key '" + objectKey.value + "' not found."
  {
    BadRequest(MessageError(ObjectMessage(objectType, objectKey, NotFoundTail), ErrorCodes.ObjectNotFoundError))
  }

  /**
   * ObjectAlreadyExistsError(Type, string). As written it passes `nameof(objectType)`,
   * the literal "objectType", so the type argument never reaches the message.
   */
  function ObjectAlreadyExistsErrorForType(objectType: Option<ClrType> := None, objectKey: Option<string> := None): (r: ActionResult)
    ensures r.status == BadRequestStatus
    ensures r.body.errorCode == Some(ErrorCodes.ObjectAlreadyExistsError) && !r.body.isFatalError
    ensures r.body.addedInfo == map[]
    ensures r.body.origin == FromMessage(Some(ObjectMessage(Some("objectType"), objectKey, AlreadyExistsTail)))
    ensures r.body.origin.FromMessage? && StartsWith(OrEmpty(r.body.origin.text), "objectType")
  {
    // `objectType ?? typeof(object)` is computed and then discarded by the source
    ObjectAlreadyExistsError(Some("objectType"), objectKey)
  }

  /** ObjectNotFoundError(Type, string); the same `nameof(objectType)` prefix as above. */
  function ObjectNotFoundErrorForType(objectType: Option<ClrType> := None, objectKey: Option<string> := None): (r: ActionResult)
    ensures r.status == BadRequestStatus
    ensures r.body.errorCode == Some(ErrorCodes.ObjectNotFoundError) && !r.body.isFatalError
    ensures r.body.addedInfo == map[]
    ensures r.body.origin == FromMessage(Some(ObjectMessage(Some("objectType"), objectKey, NotFoundTail)))
    ensures r.body.origin.FromMessage? && StartsWith(OrEmpty(r.body.origin.text), "objectType")
  {
    // `objectType ?? typeof(object)` is computed and then discarded by the source
    ObjectNotFoundError(Some("objectType"), objectKey)
  }

  /** ObjectAlreadyExistsError<T>(string): the prefix is `typeof(T).Name`. */
  function ObjectAlreadyExistsErrorOf(typeArgument: ClrType, objectKey: Option<string> := None): (r: ActionResult)
    ensures r.status == BadRequestStatus
    ensures r.body.errorCode == Some(ErrorCodes.ObjectAlreadyExistsError) && !r.body.isFatalError
    ensures r.body.addedInfo == map[]
    ensures r.body.origin == FromMessage(Some(ObjectMessage(Some(typeArgument.name), objectKey, AlreadyExistsTail)))
    ensures r.body.origin.FromMessage? && StartsWith(OrEmpty(r.body.origin.text), typeArgument.name)
  {
    ObjectAlreadyExistsError(Some(typeArgument.name), objectKey)
  }

  /** ObjectNotFoundError<T>(string): the prefix is `typeof(T).Name`. */
  function ObjectNotFoundErrorOf(typeArgument: ClrType, objectKey: Option<string> := None): (r: ActionResult)
    ensures r.status == BadRequestStatus
    ensures r.body.errorCode == Some(ErrorCodes.ObjectNotFoundError) && !r.body.isFatalError
    ensures r.body.addedInfo == map[]
    ensures r.body.origin == FromMessage(Some(ObjectMessage(Some(typeArgument.name), objectKey, NotFoundTail)))
    ensures r.body.origin.FromMessage? && StartsWith(OrEmpty(r.body.origin.text), typeArgument.name)
  {
    ObjectNotFoundError(Some(typeArgument.name), objectKey)
  }

  /** With the object type fixed, two messages agree exactly when their keys render alike. */
  lemma ObjectMessageKeyRecoverable(objectType: Option<string>, k1: Option<string>, k2: Option<string>, tail: string)
    ensures ObjectMessage(objectType, k1, tail) == ObjectMessage(objectType, k2, tail) <==> OrEmpty(k1) == OrEmpty(k2)
  {
    var p := ObjectPrefix(objectType);
    var m1, m2 := ObjectMessage(objectType, k1, tail), ObjectMessage(objectType, k2, tail);
    if m1 == m2 && !IsNullOrEmpty(k1) && !IsNullOrEmpty(k2) {
      var n := |p + WithKeyHead|;
      assert |k1.value| == |k2.value|;
      assert m1[n..n + |k1.value|] == k1.value;
      assert m2[n..n + |k2.value|] == k2.value;
    }
  }

  /** With the key fixed, two messages agree exactly when their prefixes do. */
  lemma ObjectMessageTypeRecoverable(t1: Option<string>, t2: Option<string>, objectKey: Option<string>, tail: string)
    ensures ObjectMessage(t1, objectKey, tail) == ObjectMessage(t2, objectKey, tail) <==> ObjectPrefix(t1) == ObjectPrefix(t2)
  {
  }

  /**
   * Type and key together cannot always be read back: a type whose name already looks
   * like a keyed message yields the same text as a short type with a key.
   */
  lemma ObjectMessageTypeKeyAmbiguous(tail: string)
    ensures ObjectMessage(Some("A with key 'b'"), None, tail) == ObjectMessage(Some("A"), Some("b"), tail)
  {
  }

  /** The type-typed overloads ignore their type argument entirely. */
  lemma ForTypeOverloadsIgnoreType(t1: Option<ClrType>, t2: Option<ClrType>, objectKey: Option<string>)
    ensures ObjectAlreadyExistsErrorForType(t1, objectKey) == ObjectAlreadyExistsErrorForType(t2, objectKey)
    ensures ObjectNotFoundErrorForType(t1, objectKey) == ObjectNotFoundErrorForType(t2, objectKey)
  {
  }

  /** For any type whose name is not "objectType", the type-typed overload disagrees with the generic one. */
  lemma ForTypeDiffersFromGeneric(t: ClrType, objectKey: Option<string>)
    requires t.name != [] && t.name != "objectType"
    ensures ObjectAlreadyExistsErrorForType(Some(t), objectKey) != ObjectAlreadyExistsErrorOf(t, objectKey)
    ensures ObjectNotFoundErrorForType(Some(t), objectKey) != ObjectNotFoundErrorOf(t, objectKey)
  {
  }

  /** `p` is a prefix of `s`. */
  predicate StartsWith(s: string, p: string)
  {
    |p| <= |s| && s[..|p|] == p
  }

  /** `t` occurs in `s` starting at position i. */
  predicate OccursAt(s: string, t: string, i: int)
  {
    0 <= i <= |s| - |t| && s[i..i + |t|] == t
  }

  /** `t` occurs in `s` as a contiguous piece. */
  predicate ContainsInfix(s: string, t: string)
  {
    exists i | 0 <= i <= |s| - |t| :: OccursAt(s, t, i)
  }

  /** No occurrence of t in p + s when none lies in p, none in s, and none straddles the seam. */
  lemma NoInfixAcrossSeam(p: string, s: string, t: string)
    requires !ContainsInfix(p, t) && !ContainsInfix(s, t)
    requires forall m :: 0 < m < |t| && m <= |s| ==> s[..m] != t[|t| - m..]
    ensures !ContainsInfix(p + s, t)
  {
    var ps := p + s;
    forall i | 0 <= i <= |ps| - |t| ensures !OccursAt(ps, t, i) {
      var piece := ps[i..i + |t|];
      if i + |t| <= |p| {
        assert piece == p[i..i + |t|];
        assert !OccursAt(p, t, i);
      } else if i >= |p| {
        assert piece == s[i - |p|..i - |p| + |t|];
        assert !OccursAt(s, t, i - |p|);
      } else {
        // the piece straddles the seam: its tail is a prefix of s
        var m := i + |t| - |p|;
        assert piece[|t| - m..] == s[..m];
      }
    }
  }

  const WithKey: string := "with key"

  /** Neither tail holds "with key", nor completes it when glued after a prefix. */
  lemma TailsCannotCompleteWithKey(tail: string)
    requires tail == AlreadyExistsTail || tail == NotFoundTail
    ensures !ContainsInfix(tail, WithKey)
    ensures forall m :: 0 < m < |WithKey| && m <= |tail| ==> tail[..m] != WithKey[|WithKey| - m..]
  {
    forall i | 0 <= i <= |tail| - |WithKey| ensures !OccursAt(tail, WithKey, i) {
      assert tail[i..i + |WithKey|][0] == tail[i] != 'w';
    }
    forall m | 0 < m < |WithKey| && m <= |tail| ensures tail[..m] != WithKey[|WithKey| - m..] {
      if m == 4 {
        assert tail[1] != WithKey[5];
      } else {
        assert tail[0] != WithKey[|WithKey| - m];
      }
    }
  }

  /**
   * Without a key there is no dangling "with key": the message contains "with key"
   * only if the type name itself does.
   */
  lemma KeylessObjectMessageHasNoWithKey(objectType: Option<string>, objectKey: Option<string>, tail: string)
    requires tail == AlreadyExistsTail || tail == NotFoundTail
    requires IsNullOrEmpty(objectKey)
    requires !ContainsInfix(ObjectPrefix(objectType), WithKey)
    ensures !ContainsInfix(ObjectMessage(objectType, objectKey, tail), WithKey)
  {
    TailsCannotCompleteWithKey(tail);
    NoInfixAcrossSeam(ObjectPrefix(objectType), tail, WithKey);
  }

  /** With a key, the message always says "with key". */
  lemma KeyedObjectMessageHasWithKey(objectType: Option<string>, objectKey: Option<string>, tail: string)
    requires !IsNullOrEmpty(objectKey)
    ensures ContainsInfix(ObjectMessage(objectType, objectKey, tail), WithKey)
  {
    var m := ObjectMessage(objectType, objectKey, tail);
    var i := |ObjectPrefix(objectType)| + 1;
    assert m[i..i + |WithKey|] == WithKey;
    assert OccursAt(m, WithKey, i);
  }

  // ---------------------------------------------------------------------------
  // Fatal errors
  // ---------------------------------------------------------------------------

  /** FatalServerError: 500 with a body built from the exception, flagged fatal. */
  function FatalServerError(e: Exception): (r: ActionResult)
    ensures r.status == InternalServerErrorStatus
    ensures r.body.origin == FromException(e) && r.body.isFatalError
    ensures r.body.errorCode.None?
    ensures r.body.addedInfo == map[]
  {
    ActionResult(InternalServerErrorStatus, BusinessError(FromException(e), None, true, map[]))
  }

  // ---------------------------------------------------------------------------
  // All helpers together
  // ---------------------------------------------------------------------------

  /** One call of one helper, with its arguments. */
  datatype HelperCall =
    | ModelStateErrorCall(modelState: ModelState)
    | GeneralErrorExceptionCall(exception: Exception)
    | GeneralErrorMessageCall(message: Option<string>)
    | InvalidParameterErrorCall(parameterName: Option<string>)
    | MissingParameterErrorCall(parameterName: Option<string>)
    | ObjectAlreadyExistsErrorCall(objectType: Option<string>, objectKey: Option<string>)
    | ObjectAlreadyExistsErrorForTypeCall(clrType: Option<ClrType>, objectKey: Option<string>)
    | ObjectAlreadyExistsErrorOfCall(typeArgument: ClrType, objectKey: Option<string>)
    | ObjectNotFoundErrorCall(objectType: Option<string>, objectKey: Option<string>)
    | ObjectNotFoundErrorForTypeCall(clrType: Option<ClrType>, objectKey: Option<string>)
    | ObjectNotFoundErrorOfCall(typeArgument: ClrType, objectKey: Option<string>)
    | FatalServerErrorCall(exception: Exception)

  function Invoke(call: HelperCall): ActionResult
  {
    match call
    case ModelStateErrorCall(ms) => ModelStateError(ms)
    case GeneralErrorExceptionCall(e) => GeneralErrorFromException(e)
    case GeneralErrorMessageCall(m) => GeneralErrorFromMessage(m)
    case InvalidParameterErrorCall(n) => InvalidParameterError(n)
    case MissingParameterErrorCall(n) => MissingParameterError(n)
    case ObjectAlreadyExistsErrorCall(t, k) => ObjectAlreadyExistsError(t, k)
    case ObjectAlreadyExistsErrorForTypeCall(t, k) => ObjectAlreadyExistsErrorForType(t, k)
    case ObjectAlreadyExistsErrorOfCall(t, k) => ObjectAlreadyExistsErrorOf(t, k)
    case ObjectNotFoundErrorCall(t, k) => ObjectNotFoundError(t, k)
    case ObjectNotFoundErrorForTypeCall(t, k) => ObjectNotFoundErrorForType(t, k)
    case ObjectNotFoundErrorOfCall(t, k) => ObjectNotFoundErrorOf(t, k)
    case FatalServerErrorCall(e) => FatalServerError(e)
  }

  /** The code each helper's documentation refers to; FatalServerError names none. */
  function DocumentedCode(call: HelperCall): Option<int>
  {
    match call
    case ModelStateErrorCall(_) => Some(41000)
    case GeneralErrorExceptionCall(_) => Some(41000)
    case GeneralErrorMessageCall(_) => Some(41000)
    case InvalidParameterErrorCall(_) => Some(42145)
    case MissingParameterErrorCall(_) => Some(42140)
    case ObjectAlreadyExistsErrorCall(_, _) => Some(42410)
    case ObjectAlreadyExistsErrorForTypeCall(_, _) => Some(42410)
    case ObjectAlreadyExistsErrorOfCall(_, _) => Some(42410)
    case ObjectNotFoundErrorCall(_, _) => Some(42310)
    case ObjectNotFoundErrorForTypeCall(_, _) => Some(42310)
    case ObjectNotFoundErrorOfCall(_, _) => Some(42310)
    case FatalServerErrorCall(_) => None
  }

  /** FatalServerError is the only helper answering 500 and the only one marking its body fatal; all others answer 400. */
  lemma OnlyFatalServerErrorIs500(call: HelperCall)
    ensures Invoke(call).status == 500 <==> call.FatalServerErrorCall?
    ensures Invoke(call).status == 400 <==> !call.FatalServerErrorCall?
    ensures Invoke(call).body.isFatalError <==> Invoke(call).status == 500
  {
  }

  /** Every helper passes the code its documentation names. */
  lemma HelpersPassDocumentedCodes(call: HelperCall)
    ensures Invoke(call).body.errorCode == DocumentedCode(call)
  {
  }
}
