/**
 * String helpers of the C++ runtime: splitting a stream of concatenated JSON
 * objects into the objects, building an attribute getter name, stripping a
 * C++ namespace prefix, and choosing the exception kind to rethrow for a
 * deserialized error.
 */
module Util {
  import opened Common

  // ---------------------------------------------------------------------------
  // splitIntoJsonObjects
  //
  // The scanner is specified in two layers. The lexical layer (`Lex`) gives the
  // brace depth and the in-string flag after each prefix of the stream; the
  // extraction layer (`Extract`) gives, after each prefix, the start of the
  // object being read and the spans [a, b) of the objects found so far.
  // ---------------------------------------------------------------------------

  /** A `"` at index 0, or right after a backslash, does not open or close a string. */
  predicate TogglesString(stream: seq<char>, i: nat)
    requires i < |stream|
  {
    stream[i] == '"' && i > 0 && stream[i - 1] != '\\'
  }

  datatype LexState = LexState(depth: int, inString: bool)

  /** The effect of character `i` on the depth and the in-string flag. */
  function LexStep(stream: seq<char>, i: nat, s: LexState): LexState
    requires i < |stream|
  {
    if TogglesString(stream, i) then LexState(s.depth, !s.inString)
    else if !s.inString && stream[i] == '{' then LexState(s.depth + 1, s.inString)
    else if !s.inString && stream[i] == '}' then LexState(s.depth - 1, s.inString)
    else s
  }

  /** Depth and in-string flag after the first `n` characters. */
  function Lex(stream: seq<char>, n: nat): LexState
    requires n <= |stream|
  {
    if n == 0 then LexState(0, false) else LexStep(stream, n - 1, Lex(stream, n - 1))
  }

  function Depth(stream: seq<char>, n: nat): int
    requires n <= |stream|
  {
    Lex(stream, n).depth
  }

  /** `start` is the index of the `{` opening the object being read, -1 between objects. */
  datatype Extraction = Extraction(start: int, spans: seq<(nat, nat)>)

  /**
   * Start and finished spans after the first `n` characters: an object starts where the
   * depth reaches 1 while no object is open, and ends where the depth comes back to 0.
   */
  function Extract(stream: seq<char>, n: nat): Extraction
    requires n <= |stream|
  {
    if n == 0 then Extraction(-1, [])
    else
      var e := Extract(stream, n - 1);
      var d := Depth(stream, n);
      var start := if d == 1 && e.start < 0 then n - 1 else e.start;
      if d == 0 && start >= 0 then Extraction(-1, e.spans + [(start as nat, n)])
      else Extraction(start, e.spans)
  }

  /** The spans of the objects the whole stream yields. */
  function ObjectSpans(stream: seq<char>): seq<(nat, nat)>
  {
    Extract(stream, |stream|).spans
  }

  /** The spans lie inside the first `bound` characters, in increasing order, without overlap, each from a `{` to a `}`. */
  ghost predicate WellFormedSpans(stream: seq<char>, spans: seq<(nat, nat)>, bound: nat)
  {
    && bound <= |stream|
    && (forall k :: 0 <= k < |spans| ==>
          spans[k].0 + 2 <= spans[k].1 <= bound && stream[spans[k].0] == '{' && stream[spans[k].1 - 1] == '}')
    && (forall k :: 0 < k < |spans| ==> spans[k - 1].1 <= spans[k].0)
  }

  /**
   * A top-level object: the `{` at `a` takes the depth from 0 to 1, the depth stays at least 1
   * inside, and the character before `b` brings it back to 0.
   */
  ghost predicate IsTopLevelObject(stream: seq<char>, a: nat, b: nat)
  {
    && a + 1 < b <= |stream|
    && Depth(stream, a) == 0
    && Depth(stream, b) == 0
    && forall j :: a < j < b ==> Depth(stream, j) >= 1
  }

  /** The pieces of the stream that the spans cut out, in order. */
  function Slices(stream: seq<char>, spans: seq<(nat, nat)>): (r: seq<seq<char>>)
    requires forall k :: 0 <= k < |spans| ==> spans[k].0 <= spans[k].1 <= |stream|
    ensures |r| == |spans|
    ensures forall k :: 0 <= k < |spans| ==> r[k] == stream[spans[k].0..spans[k].1]
  {
    seq(|spans|, k requires 0 <= k < |spans| => stream[spans[k].0..spans[k].1])
  }

  /** The depth moves by at most one per character. */
  lemma DepthStep(stream: seq<char>, n: nat)
    requires n < |stream|
    ensures Depth(stream, n) - 1 <= Depth(stream, n + 1) <= Depth(stream, n) + 1
    ensures Depth(stream, n + 1) == Depth(stream, n) + 1 ==> stream[n] == '{' && !Lex(stream, n).inString
    ensures Depth(stream, n + 1) == Depth(stream, n) - 1 ==> stream[n] == '}' && !Lex(stream, n).inString
  {
  }

  /** Inside a string, braces leave the depth unchanged. */
  lemma BracesInStringIgnored(stream: seq<char>, n: nat)
    requires n < |stream| && Lex(stream, n).inString
    requires stream[n] == '{' || stream[n] == '}'
    ensures Lex(stream, n + 1) == Lex(stream, n)
  {
  }

  /** A `"` at index 0 or after a backslash leaves the in-string flag unchanged. */
  lemma QuoteToggleRule(stream: seq<char>, n: nat)
    requires n < |stream| && stream[n] == '"'
    ensures Lex(stream, n + 1).inString == (if n > 0 && stream[n - 1] != '\\' then !Lex(stream, n).inString
                                             else Lex(stream, n).inString)
    ensures Depth(stream, n + 1) == Depth(stream, n)
  {
  }

  /** A prefix whose every brace lies inside a string has depth 0, so it opens no object. */
  lemma {:induction false} QuotedBracesKeepDepthZero(stream: seq<char>, n: nat)
    requires n <= |stream|
    requires forall i :: 0 <= i < n && (stream[i] == '{' || stream[i] == '}') ==> Lex(stream, i).inString
    ensures Depth(stream, n) == 0
    ensures forall j :: 0 <= j <= n ==> Extract(stream, j).start == -1 && Extract(stream, j).spans == []
  {
    if n > 0 {
      QuotedBracesKeepDepthZero(stream, n - 1);
      OpenObjectInvariant(stream, n);
    }
  }

  /**
   * An open object starts at a `{` where the depth went from 0 to 1 and has stayed at least 1
   * since; with no object open the depth is at most 0.
   */
  lemma {:induction false} OpenObjectInvariant(stream: seq<char>, n: nat)
    requires n <= |stream|
    ensures var e := Extract(stream, n);
            && (e.start < 0 ==> e.start == -1 && Depth(stream, n) <= 0)
            && (e.start >= 0 ==>
                  && e.start < n && stream[e.start] == '{'
                  && Depth(stream, e.start) == 0
                  && (forall j :: e.start < j <= n ==> Depth(stream, j) >= 1))
  {
    if n > 0 {
      OpenObjectInvariant(stream, n - 1);
      DepthStep(stream, n - 1);
    }
  }

  lemma WellFormedWiden(stream: seq<char>, spans: seq<(nat, nat)>, bound: nat, bound': nat)
    requires WellFormedSpans(stream, spans, bound) && bound <= bound' <= |stream|
    ensures WellFormedSpans(stream, spans, bound')
  {
  }

  lemma WellFormedAppend(stream: seq<char>, spans: seq<(nat, nat)>, bound: nat, a: nat, b: nat)
    requires WellFormedSpans(stream, spans, bound) && bound <= a && a + 2 <= b <= |stream|
    requires stream[a] == '{' && stream[b - 1] == '}'
    ensures WellFormedSpans(stream, spans + [(a, b)], b)
  {
    var spans' := spans + [(a, b)];
    assert forall k :: 0 <= k < |spans| ==> spans'[k] == spans[k];
  }

  /** The finished spans are well formed and end before the open object, if any. */
  lemma {:induction false} FinishedSpansWellFormed(stream: seq<char>, n: nat)
    requires n <= |stream|
    ensures var e := Extract(stream, n);
            WellFormedSpans(stream, e.spans, if e.start >= 0 then e.start else n)
  {
    if n > 0 {
      var e := Extract(stream, n - 1);
      var bound := if e.start >= 0 then e.start else n - 1;
      FinishedSpansWellFormed(stream, n - 1);
      OpenObjectInvariant(stream, n - 1);
      var e' := Extract(stream, n);
      if |e'.spans| > |e.spans| {
        DepthStep(stream, n - 1);
        WellFormedAppend(stream, e.spans, bound, e.start as nat, n);
      } else {
        WellFormedWiden(stream, e.spans, bound, if e'.start >= 0 then e'.start else n);
      }
    }
  }

  /** The open object's start, when there is one, lies inside the prefix read so far. */
  lemma {:induction false} OpenStartBefore(stream: seq<char>, n: nat)
    requires n <= |stream|
    ensures -1 <= Extract(stream, n).start < n
  {
    if n > 0 {
      OpenStartBefore(stream, n - 1);
    }
  }

  /** Spans are only ever appended. */
  lemma {:induction false} SpansGrow(stream: seq<char>, m: nat, n: nat)
    requires m <= n <= |stream|
    ensures Extract(stream, m).spans <= Extract(stream, n).spans
  {
    if m < n {
      SpansGrow(stream, m, n - 1);
    }
  }

  /** Every span found is a top-level object. */
  lemma {:induction false} SpansAreTopLevelObjects(stream: seq<char>, n: nat)
    requires n <= |stream|
    ensures forall k :: 0 <= k < |Extract(stream, n).spans| ==>
              var s := Extract(stream, n).spans[k]; IsTopLevelObject(stream, s.0, s.1)
  {
    if n > 0 {
      SpansAreTopLevelObjects(stream, n - 1);
      OpenObjectInvariant(stream, n - 1);
      FinishedSpansWellFormed(stream, n - 1);
      OpenObjectInvariant(stream, n);
      FinishedSpansWellFormed(stream, n);
    }
  }

  /** An object that is open after `n` characters started at the last place the depth went from 0 to 1. */
  lemma {:induction false} OpenObjectStart(stream: seq<char>, n: nat, a: nat)
    requires a < n <= |stream|
    requires Depth(stream, a) == 0
    requires forall j :: a < j <= n ==> Depth(stream, j) >= 1
    ensures Extract(stream, n).start == a
  {
    OpenObjectInvariant(stream, n - 1);
    FinishedSpansWellFormed(stream, n - 1);
    if a < n - 1 {
      OpenObjectStart(stream, n - 1, a);
    }
  }

  /** Every top-level object is found. */
  lemma {:induction false} TopLevelObjectsAreSpans(stream: seq<char>, n: nat, a: nat, b: nat)
    requires n <= |stream| && b <= n
    requires IsTopLevelObject(stream, a, b)
    ensures (a, b) in Extract(stream, n).spans
  {
    if b < n {
      TopLevelObjectsAreSpans(stream, n - 1, a, b);
      SpansGrow(stream, n - 1, n);
    } else {
      OpenObjectStart(stream, n - 1, a);
      assert Extract(stream, n).spans == Extract(stream, n - 1).spans + [(a, n)];
    }
  }

  /**
   * The objects of a stream are exactly its top-level objects, each a contiguous substring from a
   * `{` to a `}`, in input order and without overlap.
   */
  lemma ObjectSpansCharacterization(stream: seq<char>)
    ensures WellFormedSpans(stream, ObjectSpans(stream), |stream|)
    ensures forall a: nat, b: nat :: (a, b) in ObjectSpans(stream) <==> IsTopLevelObject(stream, a, b)
  {
    OpenObjectInvariant(stream, |stream|);
    FinishedSpansWellFormed(stream, |stream|);
    SpansAreTopLevelObjects(stream, |stream|);
    forall a: nat, b: nat | IsTopLevelObject(stream, a, b)
      ensures (a, b) in ObjectSpans(stream)
    {
      TopLevelObjectsAreSpans(stream, |stream|, a, b);
    }
  }

  /** An object still open at the end of the stream is not emitted: every span ends before it starts. */
  lemma UnclosedObjectNotEmitted(stream: seq<char>)
    requires Extract(stream, |stream|).start >= 0
    ensures forall k :: 0 <= k < |ObjectSpans(stream)| ==> ObjectSpans(stream)[k].1 <= Extract(stream, |stream|).start
  {
    OpenObjectInvariant(stream, |stream|);
    FinishedSpansWellFormed(stream, |stream|);
  }

  /** A stream with no `{` outside a string yields no object. */
  lemma {:induction false} NoOpeningBraceNoObjects(stream: seq<char>, n: nat)
    requires n <= |stream|
    requires forall i :: 0 <= i < n ==> !(stream[i] == '{' && !Lex(stream, i).inString)
    ensures Depth(stream, n) <= 0 && Extract(stream, n) == Extraction(-1, [])
  {
    if n > 0 {
      NoOpeningBraceNoObjects(stream, n - 1);
      DepthStep(stream, n - 1);
    }
  }

  /**
   * Util::splitIntoJsonObjects: one pass with a depth counter, the start of the current object
   * and an in-string flag; each object is cut out when the depth returns to 0.
   */
  method SplitIntoJsonObjects(jsonStream: seq<char>) returns (jsonObjects: seq<seq<char>>)
    ensures forall k :: 0 <= k < |ObjectSpans(jsonStream)| ==>
              var s := ObjectSpans(jsonStream)[k];
              s.0 + 2 <= s.1 <= |jsonStream| && jsonStream[s.0] == '{' && jsonStream[s.1 - 1] == '}'
    ensures forall k :: 0 < k < |ObjectSpans(jsonStream)| ==> ObjectSpans(jsonStream)[k - 1].1 <= ObjectSpans(jsonStream)[k].0
    ensures jsonObjects == Slices(jsonStream, ObjectSpans(jsonStream))
  {
    jsonObjects := [];
    var parenthesisCount := 0;
    var currentObjectStart := -1;
    var isInsideString := false;
    ghost var spans: seq<(nat, nat)> := [];
    for i := 0 to |jsonStream|
      invariant Lex(jsonStream, i) == LexState(parenthesisCount, isInsideString)
      invariant Extract(jsonStream, i) == Extraction(currentObjectStart, spans)
      invariant |jsonObjects| == |spans|
      invariant forall k :: 0 <= k < |spans| ==>
                  spans[k].0 <= spans[k].1 <= |jsonStream| && jsonObjects[k] == jsonStream[spans[k].0..spans[k].1]
    {
      OpenStartBefore(jsonStream, i);
      if jsonStream[i] == '"' && i > 0 && jsonStream[i - 1] != '\\' {
        isInsideString := !isInsideString;
      } else if !isInsideString && jsonStream[i] == '{' {
        parenthesisCount := parenthesisCount + 1;
      } else if !isInsideString && jsonStream[i] == '}' {
        parenthesisCount := parenthesisCount - 1;
      }
      assert Lex(jsonStream, i + 1) == LexState(parenthesisCount, isInsideString);
      if parenthesisCount == 1 && currentObjectStart < 0 {
        currentObjectStart := i;
      }
      if parenthesisCount == 0 && currentObjectStart >= 0 {
        jsonObjects := jsonObjects + [jsonStream[currentObjectStart..i + 1]];
        spans := spans + [(currentObjectStart as nat, i + 1)];
        currentObjectStart := -1;
      }
    }
    OpenObjectInvariant(jsonStream, |jsonStream|);
    FinishedSpansWellFormed(jsonStream, |jsonStream|);
    assert jsonObjects == Slices(jsonStream, spans);
  }

  // ---------------------------------------------------------------------------
  // attributeGetterFromName
  // ---------------------------------------------------------------------------

  /** std::toupper in the "C" locale. */
  function ToUpper(c: char): (u: char)
    ensures 'a' <= c <= 'z' ==> 'A' <= u <= 'Z' && u as int == c as int - 32
    ensures !('a' <= c <= 'z') ==> u == c
  {
    if 'a' <= c <= 'z' then (c as int - 32) as char else c
  }

  /** Util::attributeGetterFromName: "get" followed by the name with its first character upper-cased. */
  method AttributeGetterFromName(attributeName: string) returns (result: string)
    ensures |result| == |attributeName| + 3 && result[..3] == "get"
    ensures |attributeName| > 0 ==> result[3] == ToUpper(attributeName[0]) && result[4..] == attributeName[1..]
  {
    result := attributeName;
    if |result| > 0 {
      result := result[0 := ToUpper(result[0])];
    }
    result := "get" + result;
  }

  // ---------------------------------------------------------------------------
  // removeNamespace
  // ---------------------------------------------------------------------------

  predicate DoubleColonAt(s: string, i: nat)
  {
    i + 1 < |s| && s[i] == ':' && s[i + 1] == ':'
  }

  /** QString::indexOf("::", from): the first occurrence at or after `from`. */
  function IndexOfDoubleColon(s: string, from: nat): (r: Option<nat>)
    decreases |s| - from
    ensures r.Some? ==> from <= r.value && DoubleColonAt(s, r.value)
    ensures r.Some? ==> forall j :: from <= j < r.value ==> !DoubleColonAt(s, j)
    ensures r.None? ==> forall j :: from <= j ==> !DoubleColonAt(s, j)
  {
    if from + 1 >= |s| then None
    else if DoubleColonAt(s, from) then Some(from)
    else IndexOfDoubleColon(s, from + 1)
  }

  /** Util::removeNamespace: the part after the first "::", or the whole name when it has none. */
  function RemoveNamespace(className: string): (r: string)
    ensures (forall j :: !DoubleColonAt(className, j)) ==> r == className
    ensures forall i :: DoubleColonAt(className, i) && (forall j :: j < i ==> !DoubleColonAt(className, j)) ==>
              r == className[i + 2..]
  {
    var namespaceEnd := IndexOfDoubleColon(className, 0);
    if namespaceEnd.None? then className else className[namespaceEnd.value + 2..]
  }

  /** A qualified name `ns::rest` loses exactly its first segment when `ns` has no colon. */
  lemma RemoveNamespaceOfQualifiedName(ns: string, rest: string)
    requires forall i :: 0 <= i < |ns| ==> ns[i] != ':'
    ensures RemoveNamespace(ns + "::" + rest) == rest
  {
    var s := ns + "::" + rest;
    assert DoubleColonAt(s, |ns|);
    forall j: nat | j < |ns|
      ensures !DoubleColonAt(s, j)
    {
      assert s[j] == ns[j];
    }
    assert s[|ns| + 2..] == rest;
  }

  // ---------------------------------------------------------------------------
  // throwJoynrException
  // ---------------------------------------------------------------------------

  /** The exception classes the runtime rethrows with their own dynamic type. */
  datatype ExceptionKind =
    | JoynrRuntimeException
    | JoynrTimeOutException
    | DiscoveryException
    | MethodInvocationException
    | ProviderRuntimeException
    | PublicationMissedException
    | ApplicationException

  /** The TYPE_NAME of each kind. */
  function TypeName(kind: ExceptionKind): string
  {
    match kind
    case JoynrRuntimeException => "joynr.exceptions.JoynrRuntimeException"
    case JoynrTimeOutException => "joynr.exceptions.JoynrTimeOutException"
    case DiscoveryException => "joynr.exceptions.DiscoveryException"
    case MethodInvocationException => "joynr.exceptions.MethodInvocationException"
    case ProviderRuntimeException => "joynr.exceptions.ProviderRuntimeException"
    case PublicationMissedException => "joynr.exceptions.PublicationMissedException"
    case ApplicationException => "joynr.exceptions.ApplicationException"
  }

  /** A received error, as its type name and message. */
  datatype JoynrException = JoynrException(typeName: string, message: string)

  /** The exception that is thrown: its kind and its message. */
  datatype Thrown = Thrown(kind: ExceptionKind, message: string)

  /**
   * Util::throwJoynrException: an error of a known type is rethrown as that kind with its own
   * message; any other type becomes a JoynrRuntimeException naming the unknown type.
   */
  function ThrowJoynrException(error: JoynrException): (thrown: Thrown)
    ensures forall kind :: error.typeName == TypeName(kind) ==> thrown == Thrown(kind, error.message)
    ensures (forall kind :: error.typeName != TypeName(kind)) ==>
              thrown == Thrown(JoynrRuntimeException, "Unknown exception: " + error.typeName + ": " + error.message)
  {
    var typeName := error.typeName;
    if typeName == TypeName(JoynrRuntimeException) then Thrown(JoynrRuntimeException, error.message)
    else if typeName == TypeName(JoynrTimeOutException) then Thrown(JoynrTimeOutException, error.message)
    else if typeName == TypeName(DiscoveryException) then Thrown(DiscoveryException, error.message)
    else if typeName == TypeName(MethodInvocationException) then Thrown(MethodInvocationException, error.message)
    else if typeName == TypeName(ProviderRuntimeException) then Thrown(ProviderRuntimeException, error.message)
    else if typeName == TypeName(PublicationMissedException) then Thrown(PublicationMissedException, error.message)
    else if typeName == TypeName(ApplicationException) then Thrown(ApplicationException, error.message)
    else Thrown(JoynrRuntimeException, "Unknown exception: " + error.typeName + ": " + error.message)
  }

  /** Rethrowing preserves the kind: the kind thrown for a kind's own type name is that kind. */
  lemma ThrowPreservesKind(kind: ExceptionKind, message: string)
    ensures ThrowJoynrException(JoynrException(TypeName(kind), message)) == Thrown(kind, message)
  {
  }
}
