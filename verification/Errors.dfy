// Error chains and their categories (errors.go). Error values are immutable trees: a package error
// has at most one cause, any other error wraps any number of errors, as errors.Join does.

module Errors {
  import opened Wrappers

  type ErrorCode = string

  const UNKNOWN: ErrorCode := "unknown"
  const INVALID_CONFIGURATION: ErrorCode := "invalid_configuration"
  const INVALID_REQUEST: ErrorCode := "invalid_request"
  const AUTHORIZATION_DENIED: ErrorCode := "authorization_denied"
  const STATE_VALIDATION: ErrorCode := "state_validation_failed"
  const TOKEN_EXCHANGE: ErrorCode := "token_exchange_failed"
  const TOKEN_REFRESH: ErrorCode := "token_refresh_failed"
  const TRANSPORT: ErrorCode := "transport_failed"
  const PROVIDER_RESPONSE: ErrorCode := "provider_response_failed"
  const DECODING: ErrorCode := "response_decoding_failed"
  const UNSUPPORTED: ErrorCode := "unsupported_operation"
  const PROVIDER_NOT_FOUND: ErrorCode := "provider_not_found"
  const DUPLICATE_PROVIDER: ErrorCode := "duplicate_provider"
  const RESPONSE_TOO_LARGE: ErrorCode := "response_too_large"

  const CODES: set<ErrorCode> := {
    UNKNOWN, INVALID_CONFIGURATION, INVALID_REQUEST, AUTHORIZATION_DENIED, STATE_VALIDATION, TOKEN_EXCHANGE,
    TOKEN_REFRESH, TRANSPORT, PROVIDER_RESPONSE, DECODING, UNSUPPORTED, PROVIDER_NOT_FOUND, DUPLICATE_PROVIDER,
    RESPONSE_TOO_LARGE
  }

  // The codes with an exported sentinel variable.
  const SENTINELS: set<ErrorCode> := CODES - {UNKNOWN}

  predicate ValidErrorCode(code: ErrorCode) {
    code in CODES
  }

  // What errors.Is and errors.As find a foreign error to be, by its own value or its own methods.
  datatype Kind = Canceled | DeadlineExceeded | BodyTooLarge | Network

  datatype GoError =
    | Package(code: ErrorCode, provider: string, operation: string, cause: Option<GoError>) // any code: callers can write &Error{}
    | NilPackage // a nil *Error stored in an error
    | Category(category: ErrorCode, exported: bool) // exported: the package variable itself, not a copy of it
    | Foreign(kinds: set<Kind>, text: string, claims: set<ErrorCode>, asPackage: Option<ErrorCode>, asCategory: Option<ErrorCode>,
              wrapped: seq<GoError>)
      // claims: the sentinels its own Is method accepts; asPackage and asCategory: the code of the
      // package error and of the category that its own As method stores, if any

  function NewError(code: ErrorCode, provider: string, operation: string, cause: Option<GoError>): GoError {
    Package(if ValidErrorCode(code) then code else UNKNOWN, provider, operation, cause)
  }

  // What errors.As comes up with. It is genuine if it is a node of the tree and a node that errors.Is
  // could match: not a value an As method stored, nor a copy of a sentinel.
  datatype Finding = Finding(code: ErrorCode, genuine: bool)

  // errors.As for *Error: the first package error, in the order the chain is walked.
  function FindPackage(e: GoError): Option<Finding>
    decreases e, 1
  {
    match e
    case Package(code, _, _, _) => Some(Finding(code, true))
    case NilPackage => Some(Finding(UNKNOWN, true))
    case Category(_, _) => None
    case Foreign(_, _, _, asPackage, _, wrapped) =>
      if asPackage.Some? then Some(Finding(asPackage.value, false)) else FindPackageIn(wrapped)
  }

  function FindPackageIn(es: seq<GoError>): Option<Finding>
    decreases es, 0
  {
    if es == [] then None
    else if FindPackage(es[0]).Some? then FindPackage(es[0])
    else FindPackageIn(es[1..])
  }

  // errors.As for *categoryError: the first category error.
  function FindCategory(e: GoError): Option<Finding>
    decreases e, 1
  {
    match e
    case Package(_, _, _, cause) => if cause.Some? then FindCategory(cause.value) else None
    case NilPackage => None
    case Category(code, exported) => Some(Finding(code, exported))
    case Foreign(_, _, _, _, asCategory, wrapped) =>
      if asCategory.Some? then Some(Finding(asCategory.value, false)) else FindCategoryIn(wrapped)
  }

  function FindCategoryIn(es: seq<GoError>): Option<Finding>
    decreases es, 0
  {
    if es == [] then None
    else if FindCategory(es[0]).Some? then FindCategory(es[0])
    else FindCategoryIn(es[1..])
  }

  function Found(e: GoError): Option<Finding> {
    if FindPackage(e).Some? then FindPackage(e) else FindCategory(e)
  }

  // None stands for the pair (unknown, false).
  function ErrorCodeOf(e: GoError): Option<ErrorCode> {
    match Found(e)
    case Some(finding) => Some(finding.code)
    case None => None
  }

  predicate IsErrorCode(e: GoError, code: ErrorCode) {
    ErrorCodeOf(e) == Some(code)
  }

  // errors.Is against the exported sentinel of a category; there is none for any other code.
  predicate Is(e: GoError, sentinel: ErrorCode) {
    sentinel in SENTINELS && Matches(e, sentinel)
  }

  predicate Matches(e: GoError, sentinel: ErrorCode)
    decreases e, 1
  {
    match e
    case Package(code, _, _, cause) =>
      || (code != UNKNOWN && code == sentinel)
      || (cause.Some? && Matches(cause.value, sentinel))
    case NilPackage => false
    case Category(code, exported) => exported && code == sentinel
    case Foreign(_, _, claims, _, _, wrapped) => sentinel in claims || MatchesIn(wrapped, sentinel)
  }

  predicate MatchesIn(es: seq<GoError>, sentinel: ErrorCode)
    decreases es, 0
  {
    es != [] && (Matches(es[0], sentinel) || MatchesIn(es[1..], sentinel))
  }

  // errors.Is against a fixed foreign error value, or errors.As against the interface it implements.
  predicate HasKind(e: GoError, wanted: set<Kind>)
    decreases e, 1
  {
    match e
    case Package(_, _, _, cause) => cause.Some? && HasKind(cause.value, wanted)
    case NilPackage => false
    case Category(_, _) => false
    case Foreign(kinds, _, _, _, _, wrapped) => !(kinds !! wanted) || HasKindIn(wrapped, wanted)
  }

  predicate HasKindIn(es: seq<GoError>, wanted: set<Kind>)
    decreases es, 0
  {
    es != [] && (HasKind(es[0], wanted) || HasKindIn(es[1..], wanted))
  }

  // The error loadUser returns for a loader error while the context is live.
  function Rewrap(provider: string, operation: string, e: GoError): GoError {
    match ErrorCodeOf(e)
    case Some(code) => NewError(code, provider, operation, Some(e))
    case None => NewError(DECODING, provider, operation, Some(e))
  }

  // --- what is reported against what is matched ---

  lemma {:induction false} FoundPackageMatches(e: GoError, code: ErrorCode)
    requires FindPackage(e) == Some(Finding(code, true)) && code != UNKNOWN
    ensures Matches(e, code)
    decreases e, 1
  {
    if e.Foreign? {
      FoundPackageMatchesIn(e.wrapped, code);
    }
  }

  lemma {:induction false} FoundPackageMatchesIn(es: seq<GoError>, code: ErrorCode)
    requires FindPackageIn(es) == Some(Finding(code, true)) && code != UNKNOWN
    ensures MatchesIn(es, code)
    decreases es, 0
  {
    if FindPackage(es[0]).Some? {
      FoundPackageMatches(es[0], code);
    } else {
      FoundPackageMatchesIn(es[1..], code);
    }
  }

  lemma {:induction false} FoundCategoryMatches(e: GoError, code: ErrorCode)
    requires FindCategory(e) == Some(Finding(code, true))
    ensures Matches(e, code)
    decreases e, 1
  {
    match e
    case Package(_, _, _, cause) => FoundCategoryMatches(cause.value, code);
    case Foreign(_, _, _, _, _, wrapped) => FoundCategoryMatchesIn(wrapped, code);
    case _ =>
  }

  lemma {:induction false} FoundCategoryMatchesIn(es: seq<GoError>, code: ErrorCode)
    requires FindCategoryIn(es) == Some(Finding(code, true))
    ensures MatchesIn(es, code)
    decreases es, 0
  {
    if FindCategory(es[0]).Some? {
      FoundCategoryMatches(es[0], code);
    } else {
      FoundCategoryMatchesIn(es[1..], code);
    }
  }

  // Every sentinel a node of the tree stands for: a package error's code, an exported sentinel, or
  // what an Is method claims.
  function Offered(e: GoError): set<ErrorCode>
    decreases e, 1
  {
    match e
    case Package(code, _, _, cause) => {code} + (if cause.Some? then Offered(cause.value) else {})
    case NilPackage => {}
    case Category(code, exported) => if exported then {code} else {}
    case Foreign(_, _, claims, _, _, wrapped) => claims + OfferedIn(wrapped)
  }

  function OfferedIn(es: seq<GoError>): set<ErrorCode>
    decreases es, 0
  {
    if es == [] then {} else Offered(es[0]) + OfferedIn(es[1..])
  }

  lemma {:induction false} MatchesMeansOffered(e: GoError, sentinel: ErrorCode)
    requires sentinel != UNKNOWN
    ensures Matches(e, sentinel) <==> sentinel in Offered(e)
    decreases e, 1
  {
    match e
    case Package(_, _, _, Some(cause)) => MatchesMeansOffered(cause, sentinel);
    case Foreign(_, _, _, _, _, wrapped) => MatchesInMeansOffered(wrapped, sentinel);
    case _ =>
  }

  lemma {:induction false} MatchesInMeansOffered(es: seq<GoError>, sentinel: ErrorCode)
    requires sentinel != UNKNOWN
    ensures MatchesIn(es, sentinel) <==> sentinel in OfferedIn(es)
    decreases es, 0
  {
    if es != [] {
      MatchesMeansOffered(es[0], sentinel);
      MatchesInMeansOffered(es[1..], sentinel);
    }
  }

  // The category ErrorCodeOf reports was decided by a node of the tree, not by an As method or a
  // copied sentinel.
  predicate DecidedGenuinely(e: GoError) {
    Found(e).Some? && Found(e).value.genuine
  }

  // No As method of a node stores anything, and no node is a copied sentinel.
  predicate Honest(e: GoError)
    decreases e, 1
  {
    match e
    case Package(_, _, _, cause) => cause.Some? ==> Honest(cause.value)
    case NilPackage => true
    case Category(_, exported) => exported
    case Foreign(_, _, _, asPackage, asCategory, wrapped) => asPackage.None? && asCategory.None? && HonestIn(wrapped)
  }

  predicate HonestIn(es: seq<GoError>)
    decreases es, 0
  {
    es != [] ==> Honest(es[0]) && HonestIn(es[1..])
  }

  lemma {:induction false} HonestFindings(e: GoError)
    requires Honest(e)
    ensures FindPackage(e).Some? ==> FindPackage(e).value.genuine
    ensures FindCategory(e).Some? ==> FindCategory(e).value.genuine
    decreases e, 1
  {
    match e
    case Package(_, _, _, Some(cause)) => HonestFindings(cause);
    case Foreign(_, _, _, _, _, wrapped) => HonestFindingsIn(wrapped);
    case _ =>
  }

  lemma {:induction false} HonestFindingsIn(es: seq<GoError>)
    requires HonestIn(es)
    ensures FindPackageIn(es).Some? ==> FindPackageIn(es).value.genuine
    ensures FindCategoryIn(es).Some? ==> FindCategoryIn(es).value.genuine
    decreases es, 0
  {
    if es != [] {
      HonestFindings(es[0]);
      HonestFindingsIn(es[1..]);
    }
  }

  // errors.Is confirms the category ErrorCodeOf reports, if the category has a sentinel, for every
  // honest error. In general it does so if and only if a node decided the category or another node
  // offers it; without a sentinel it never does.
  lemma ReportedCodeMatchesSentinel(e: GoError, code: ErrorCode)
    requires IsErrorCode(e, code) && code != UNKNOWN
    ensures Honest(e) && code in SENTINELS ==> Is(e, code)
    ensures code in SENTINELS ==> (Is(e, code) <==> DecidedGenuinely(e) || code in Offered(e))
    ensures code !in SENTINELS ==> !Is(e, code)
    ensures DecidedGenuinely(e) ==> code in Offered(e)
  {
    if Honest(e) {
      HonestFindings(e);
    }
    MatchesMeansOffered(e, code);
    if DecidedGenuinely(e) {
      if FindPackage(e).Some? {
        FoundPackageMatches(e, code);
      } else {
        FoundCategoryMatches(e, code);
      }
    }
  }

  // Three errors whose reported category nothing confirms. A copied sentinel:
  lemma CopiedSentinelEscapes(code: ErrorCode, text: string)
    ensures var e := Foreign({}, text, {}, None, None, [Category(code, false)]);
            IsErrorCode(e, code) && !DecidedGenuinely(e) && forall sentinel :: !Is(e, sentinel)
  {
    var leaf := Category(code, false);
    var leaves := [leaf];
    assert leaves[0] == leaf && leaves[1..] == [];
    assert FindPackage(leaf).None? && FindPackageIn(leaves[1..]).None?;
    assert FindPackageIn(leaves).None?;
    assert FindCategoryIn(leaves) == FindCategory(leaf) == Some(Finding(code, false));
    forall sentinel
      ensures !Matches(Foreign({}, text, {}, None, None, leaves), sentinel)
    {
      assert !Matches(leaf, sentinel) && !MatchesIn(leaves[1..], sentinel);
      assert !MatchesIn(leaves, sentinel);
    }
  }

  // ... an As method that stores an error it does not wrap:
  lemma StoredErrorEscapes(code: ErrorCode, text: string)
    ensures var e := Foreign({}, text, {}, Some(code), None, []);
            IsErrorCode(e, code) && !DecidedGenuinely(e) && forall sentinel :: !Is(e, sentinel)
  {
    forall sentinel
      ensures !Matches(Foreign({}, text, {}, Some(code), None, []), sentinel)
    {
      assert !MatchesIn([], sentinel);
    }
  }

  // ... and the zero value of Error, whose code no sentinel has.
  lemma ZeroErrorEscapes()
    ensures var e := Package("", "", "", None);
            IsErrorCode(e, "") && DecidedGenuinely(e) && forall sentinel :: !Is(e, sentinel)
  {
  }

  // --- re-wrapping ---

  // Every package error, in the tree or stored by an As method, was built by NewError.
  predicate BuiltByNewError(e: GoError)
    decreases e, 1
  {
    match e
    case Package(code, _, _, cause) => ValidErrorCode(code) && (cause.Some? ==> BuiltByNewError(cause.value))
    case NilPackage => true
    case Category(code, _) => ValidErrorCode(code)
    case Foreign(_, _, _, asPackage, asCategory, wrapped) =>
      && (asPackage.Some? ==> ValidErrorCode(asPackage.value))
      && (asCategory.Some? ==> ValidErrorCode(asCategory.value))
      && BuiltByNewErrorIn(wrapped)
  }

  predicate BuiltByNewErrorIn(es: seq<GoError>)
    decreases es, 0
  {
    es != [] ==> BuiltByNewError(es[0]) && BuiltByNewErrorIn(es[1..])
  }

  lemma {:induction false} BuiltCodesAreValid(e: GoError)
    requires BuiltByNewError(e)
    ensures FindPackage(e).Some? ==> ValidErrorCode(FindPackage(e).value.code)
    ensures FindCategory(e).Some? ==> ValidErrorCode(FindCategory(e).value.code)
    decreases e, 1
  {
    match e
    case Package(_, _, _, Some(cause)) => BuiltCodesAreValid(cause);
    case Foreign(_, _, _, _, _, wrapped) => BuiltCodesAreValidIn(wrapped);
    case _ =>
  }

  lemma {:induction false} BuiltCodesAreValidIn(es: seq<GoError>)
    requires BuiltByNewErrorIn(es)
    ensures FindPackageIn(es).Some? ==> ValidErrorCode(FindPackageIn(es).value.code)
    ensures FindCategoryIn(es).Some? ==> ValidErrorCode(FindCategoryIn(es).value.code)
    decreases es, 0
  {
    if es != [] {
      BuiltCodesAreValid(es[0]);
      BuiltCodesAreValidIn(es[1..]);
    }
  }

  // Re-wrapping keeps the reported code exactly when that code is a valid one; it keeps every
  // sentinel that was matched and adds at most the one of its own code; and foreign errors beneath it
  // are found as before.
  lemma RewrapKeepsMatches(provider: string, operation: string, e: GoError, sentinel: ErrorCode, wanted: set<Kind>)
    ensures var wrapped := Rewrap(provider, operation, e);
            && (ErrorCodeOf(e).Some? ==> (ErrorCodeOf(wrapped) == ErrorCodeOf(e) <==> ValidErrorCode(ErrorCodeOf(e).value)))
            && (ErrorCodeOf(e).None? ==> IsErrorCode(wrapped, DECODING))
            && (Is(wrapped, sentinel) <==> Is(e, sentinel) || (sentinel in SENTINELS && IsErrorCode(wrapped, sentinel)))
            && HasKind(wrapped, wanted) == HasKind(e, wanted)
  {
  }

  // For errors built by NewError, re-wrapping keeps the code, and it changes nothing errors.Is
  // matches if and only if the code is unknown or offered beneath: always, if a node decided it, as in
  // every honest error.
  lemma RewrapIsTransparent(provider: string, operation: string, e: GoError)
    requires BuiltByNewError(e) && ErrorCodeOf(e).Some?
    ensures var (wrapped, code) := (Rewrap(provider, operation, e), ErrorCodeOf(e).value);
            && ErrorCodeOf(wrapped) == ErrorCodeOf(e)
            && ((forall sentinel :: Is(wrapped, sentinel) <==> Is(e, sentinel)) <==> code == UNKNOWN || code in Offered(e))
            && (DecidedGenuinely(e) ==> code == UNKNOWN || code in Offered(e))
            && (Honest(e) ==> forall sentinel :: Is(wrapped, sentinel) <==> Is(e, sentinel))
  {
    if Honest(e) {
      HonestFindings(e);
    }
    BuiltCodesAreValid(e);
    var (wrapped, code) := (Rewrap(provider, operation, e), ErrorCodeOf(e).value);
    if code != UNKNOWN {
      ReportedCodeMatchesSentinel(e, code);
      RewrapKeepsMatches(provider, operation, e, code, {});
    }
  }

  // --- which node decides ---

  // The nodes of a tree in the order errors.Is and errors.As walk it.
  function Nodes(e: GoError): seq<GoError>
    decreases e, 1
  {
    [e] + match e
          case Package(_, _, _, cause) => (if cause.Some? then Nodes(cause.value) else [])
          case Foreign(_, _, _, _, _, wrapped) => NodesIn(wrapped)
          case _ => []
  }

  function NodesIn(es: seq<GoError>): seq<GoError>
    decreases es, 0
  {
    if es == [] then [] else Nodes(es[0]) + NodesIn(es[1..])
  }

  // What a node is by itself, or stores when asked.
  function AsPackage(node: GoError): Option<ErrorCode> {
    match node
    case Package(code, _, _, _) => Some(code)
    case NilPackage => Some("unknown")
    case Category(_, _) => None
    case Foreign(_, _, _, asPackage, _, _) => asPackage
  }

  function AsCategory(node: GoError): Option<ErrorCode> {
    match node
    case Category(code, _) => Some(code)
    case Foreign(_, _, _, _, asCategory, _) => asCategory
    case _ => None
  }

  function Replies(nodes: seq<GoError>, answer: GoError -> Option<ErrorCode>): seq<Option<ErrorCode>> {
    if nodes == [] then [] else [answer(nodes[0])] + Replies(nodes[1..], answer)
  }

  // The first answer there is, if there is one.
  ghost predicate IsFirst(answers: seq<Option<ErrorCode>>, found: Option<ErrorCode>) {
    match found
    case None => forall i :: 0 <= i < |answers| ==> answers[i].None?
    case Some(_) => exists i :: 0 <= i < |answers| && answers[i] == found && forall j :: 0 <= j < i ==> answers[j].None?
  }

  lemma {:induction false} RepliesOfConcat(a: seq<GoError>, b: seq<GoError>, answer: GoError -> Option<ErrorCode>)
    ensures Replies(a + b, answer) == Replies(a, answer) + Replies(b, answer)
  {
    if a == [] {
      assert a + b == b;
    } else {
      assert (a + b)[0] == a[0] && (a + b)[1..] == a[1..] + b;
      RepliesOfConcat(a[1..], b, answer);
    }
  }

  lemma FirstOfConcat(a: seq<Option<ErrorCode>>, b: seq<Option<ErrorCode>>, x: Option<ErrorCode>, y: Option<ErrorCode>)
    requires IsFirst(a, x) && IsFirst(b, y)
    ensures IsFirst(a + b, if x.Some? then x else y)
  {
    var ab := a + b;
    if x.Some? {
      var i :| 0 <= i < |a| && a[i] == x && forall j :: 0 <= j < i ==> a[j].None?;
      assert ab[i] == x;
    } else if y.Some? {
      var i :| 0 <= i < |b| && b[i] == y && forall j :: 0 <= j < i ==> b[j].None?;
      assert ab[|a| + i] == y;
    }
  }

  function Code(finding: Option<Finding>): Option<ErrorCode> {
    match finding
    case Some(f) => Some(f.code)
    case None => None
  }

  lemma FirstAlone(x: Option<ErrorCode>)
    ensures IsFirst([x], x)
  {
    assert [x][0] == x;
  }

  lemma FirstOfNone()
    ensures IsFirst([], None)
  {
  }

  // Of a node and the nodes beneath it.
  lemma NodeThen(node: GoError, rest: seq<GoError>, answer: GoError -> Option<ErrorCode>, found: Option<ErrorCode>)
    requires IsFirst(Replies(rest, answer), found)
    ensures IsFirst(Replies([node] + rest, answer), if answer(node).Some? then answer(node) else found)
  {
    FirstAlone(answer(node));
    assert ([node] + rest)[1..] == rest;
    FirstOfConcat([answer(node)], Replies(rest, answer), answer(node), found);
  }

  lemma {:induction false} FindPackageIsFirst(e: GoError)
    ensures IsFirst(Replies(Nodes(e), AsPackage), Code(FindPackage(e)))
    decreases e, 1
  {
    FirstOfNone();
    match e
    case Package(_, _, _, Some(cause)) =>
      FindPackageIsFirst(cause);
      NodeThen(e, Nodes(cause), AsPackage, Code(FindPackage(cause)));
    case Foreign(_, _, _, _, _, wrapped) =>
      FindPackageInIsFirst(wrapped);
      NodeThen(e, NodesIn(wrapped), AsPackage, Code(FindPackageIn(wrapped)));
    case _ =>
      NodeThen(e, [], AsPackage, None);
  }

  lemma {:induction false} FindPackageInIsFirst(es: seq<GoError>)
    ensures IsFirst(Replies(NodesIn(es), AsPackage), Code(FindPackageIn(es)))
    decreases es, 0
  {
    if es == [] {
      FirstOfNone();
    } else {
      FindPackageIsFirst(es[0]);
      FindPackageInIsFirst(es[1..]);
      RepliesOfConcat(Nodes(es[0]), NodesIn(es[1..]), AsPackage);
      FirstOfConcat(Replies(Nodes(es[0]), AsPackage), Replies(NodesIn(es[1..]), AsPackage), Code(FindPackage(es[0])), Code(FindPackageIn(es[1..])));
    }
  }

  lemma {:induction false} FindCategoryIsFirst(e: GoError)
    ensures IsFirst(Replies(Nodes(e), AsCategory), Code(FindCategory(e)))
    decreases e, 1
  {
    FirstOfNone();
    match e
    case Package(_, _, _, Some(cause)) =>
      FindCategoryIsFirst(cause);
      NodeThen(e, Nodes(cause), AsCategory, Code(FindCategory(cause)));
    case Foreign(_, _, _, _, _, wrapped) =>
      FindCategoryInIsFirst(wrapped);
      NodeThen(e, NodesIn(wrapped), AsCategory, Code(FindCategoryIn(wrapped)));
    case _ =>
      NodeThen(e, [], AsCategory, None);
  }

  lemma {:induction false} FindCategoryInIsFirst(es: seq<GoError>)
    ensures IsFirst(Replies(NodesIn(es), AsCategory), Code(FindCategoryIn(es)))
    decreases es, 0
  {
    if es == [] {
      FirstOfNone();
    } else {
      FindCategoryIsFirst(es[0]);
      FindCategoryInIsFirst(es[1..]);
      RepliesOfConcat(Nodes(es[0]), NodesIn(es[1..]), AsCategory);
      FirstOfConcat(Replies(Nodes(es[0]), AsCategory), Replies(NodesIn(es[1..]), AsCategory), Code(FindCategory(es[0])), Code(FindCategoryIn(es[1..])));
    }
  }

  // The reported category is that of the first package error in the tree and, only if there is none,
  // that of the first category error.
  lemma ReportedByFirstNode(e: GoError) returns (package: Option<ErrorCode>, category: Option<ErrorCode>)
    ensures IsFirst(Replies(Nodes(e), AsPackage), package) && IsFirst(Replies(Nodes(e), AsCategory), category)
    ensures ErrorCodeOf(e) == if package.Some? then package else category
  {
    package, category := Code(FindPackage(e)), Code(FindCategory(e));
    FindPackageIsFirst(e);
    FindCategoryIsFirst(e);
  }

  // NewError keeps each of the fourteen codes, and errors.Is confirms all of them but "unknown".
  lemma NewErrorKeepsCodes(code: ErrorCode, provider: string, operation: string, cause: Option<GoError>)
    ensures var e := NewError(code, provider, operation, cause);
            var codes := [
              "invalid_configuration", "invalid_request", "authorization_denied", "state_validation_failed",
              "token_exchange_failed", "token_refresh_failed", "transport_failed", "provider_response_failed",
              "response_decoding_failed", "unsupported_operation", "provider_not_found", "duplicate_provider",
              "response_too_large"];
            && (code in codes ==> IsErrorCode(e, code) && Is(e, code))
            && (code !in codes ==> IsErrorCode(e, "unknown") && !Is(NewError(code, provider, operation, None), code))
  {
  }
}
