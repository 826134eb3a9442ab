/**
 * The layout parser of ui/ui.go: it maps an already-decoded YAML document
 * (nested string-keyed maps) to an Instruction. Every failure in the source
 * is a Go panic; here it is the Failure of a Result, carrying the panic value.
 * Go's random map iteration order is a nondeterministic choice of the next
 * key.
 */
module Ui {
  import opened Wrappers
  import opened Geometry

  /** A decoded YAML value. */
  datatype Value =
    | Str(s: string)
    | Num(n: int)
    | Bool(b: bool)
    | List(items: seq<Value>)
    | Object(fields: map<string, Value>)
    | Null

  /** Anything that carries a texture. */
  datatype Element = Element(rect: Rect, path: string)

  datatype AlignSpec = AlignSpec(container: int, position: string)

  datatype FactorySpec = FactorySpec(kind: int, matrix: seq<int>, element: Element, align: string)

  datatype Instruction = Instruction(align: AlignSpec, factory: FactorySpec)

  /** The zero Instruction that Parse starts from; a nil Matrix is the empty sequence. */
  const ZeroInstruction := Instruction(AlignSpec(0, ""), FactorySpec(0, [], Element(ZeroRect, ""), ""))

  /** The suffixes of the type-error panics. */
  const Errors: seq<string> := ["Expected string.", "Expected number.", "Expected object."]

  /** The values the parser panics with. */
  datatype Panic =
    | Message(text: string)            // panic(string)
    | BadAssertion                     // a failed type assertion on the "scene" entry
    | AtoiFailed(input: string)        // panic(err) for a *strconv.NumError
    | IndexOutOfRange(index: int, length: int)

  // ---------------------------------------------------------------------
  // strconv.Atoi (without overflow) and strconv.Itoa

  predicate IsDigit(c: char)
  {
    '0' <= c <= '9'
  }

  predicate AllDigits(s: string)
  {
    forall i :: 0 <= i < |s| ==> IsDigit(s[i])
  }

  function DigitValue(c: char): nat
    requires IsDigit(c)
  {
    c as int - '0' as int
  }

  function DigitChar(d: nat): char
    requires d < 10
  {
    (d + '0' as int) as char
  }

  /** The number a string of decimal digits denotes. */
  function DecimalValue(s: string): nat
    requires AllDigits(s)
  {
    if s == [] then 0 else 10 * DecimalValue(s[..|s| - 1]) + DigitValue(s[|s| - 1])
  }

  /** strconv.Atoi: an optional sign followed by at least one decimal digit. */
  function Atoi(s: string): (r: Option<int>)
    ensures r.Some? <==>
      || (|s| > 0 && AllDigits(s))
      || (|s| > 1 && (s[0] == '+' || s[0] == '-') && AllDigits(s[1..]))
    ensures |s| > 0 && AllDigits(s) ==> r == Some(DecimalValue(s))
    ensures |s| > 1 && s[0] == '-' && AllDigits(s[1..]) ==> r.Some? && r.value == -(DecimalValue(s[1..]) as int)
    ensures |s| > 1 && s[0] == '+' && AllDigits(s[1..]) ==> r == Some(DecimalValue(s[1..]))
  {
    if |s| > 0 && (s[0] == '+' || s[0] == '-') then
      if |s| > 1 && AllDigits(s[1..]) then
        var magnitude: int := DecimalValue(s[1..]);
        Some(if s[0] == '-' then -magnitude else magnitude)
      else None
    else if |s| > 0 && AllDigits(s) then Some(DecimalValue(s))
    else None
  }

  /** The shortest decimal digits of n. */
  function Digits(n: nat): string
  {
    if n < 10 then [DigitChar(n)] else Digits(n / 10) + [DigitChar(n % 10)]
  }

  /** strconv.Itoa */
  function Itoa(n: int): string
  {
    if n < 0 then "-" + Digits(-n) else Digits(n)
  }

  lemma {:induction false} DigitsDenote(n: nat)
    ensures |Digits(n)| >= 1 && AllDigits(Digits(n)) && DecimalValue(Digits(n)) == n
  {
    if n >= 10 {
      DigitsDenote(n / 10);
      var s := Digits(n);
      assert s[..|s| - 1] == Digits(n / 10);
    }
  }

  /** Atoi reads back what Itoa writes. */
  lemma AtoiItoa(n: int)
    ensures Atoi(Itoa(n)) == Some(n)
  {
    if n < 0 {
      DigitsDenote(-n);
      assert Itoa(n)[1..] == Digits(-n);
    } else {
      DigitsDenote(n);
    }
  }

  // ---------------------------------------------------------------------
  // The "matrix" splitter

  /**
   * The splitter's cut so far: the completed segments and the segment being
   * collected.
   */
  datatype Cut = Cut(done: seq<string>, temp: string)

  /** The cut after reading s: a '*' completes the current segment, any other character extends it. */
  function Cuts(s: string): Cut
  {
    if s == [] then Cut([], "")
    else
      var r := Cuts(s[..|s| - 1]);
      var c := s[|s| - 1];
      if c == '*' then Cut(r.done + [r.temp], "") else Cut(r.done, r.temp + [c])
  }

  /** The '*'-separated segments of s. */
  function Split(s: string): seq<string>
  {
    Cuts(s).done + [Cuts(s).temp]
  }

  /** The splitter's state: the output slice and the next index to fill. */
  datatype MatrixState = MatrixState(output: seq<int>, index: nat)

  /** One completed segment: Atoi it, then store it at output[index]. */
  function Store(st: MatrixState, segment: string): Result<MatrixState, Panic>
  {
    match Atoi(segment)
    case None => Failure(AtoiFailed(segment))
    case Some(n) =>
      if st.index < |st.output| then Success(MatrixState(st.output[st.index := n], st.index + 1))
      else Failure(IndexOutOfRange(st.index, |st.output|))
  }

  /** Storing segments in order, from output [0, 0] and index 0. */
  function StoreAll(segments: seq<string>): Result<MatrixState, Panic>
  {
    if segments == [] then Success(MatrixState([0, 0], 0))
    else
      match StoreAll(segments[..|segments| - 1])
      case Failure(p) => Failure(p)
      case Success(st) => Store(st, segments[|segments| - 1])
  }

  /** What the "matrix" splitter makes of a string. */
  function Matrix(s: string): Result<seq<int>, Panic>
  {
    match StoreAll(Split(s))
    case Failure(p) => Failure(p)
    case Success(st) => Success(st.output)
  }

  /**
   * The splitter loop: walks s followed by one space, cutting at each '*' and
   * at the space.
   */
  method ParseMatrix(value: string) returns (r: Result<seq<int>, Panic>)
    ensures r == Matrix(value)
  {
    var index := 0;
    var output := [0, 0];
    var temp := "";
    var text := value + " ";
    ghost var done: seq<string> := [];
    var i := 0;
    while i < |text|
      invariant 0 <= i <= |text|
      invariant i <= |value| ==> Cuts(value[..i]) == Cut(done, temp)
      invariant i == |text| ==> done == Split(value)
      invariant StoreAll(done) == Success(MatrixState(output, index))
    {
      var v := text[i];
      if v == '*' || i >= |value| {
        if i < |value| {
          assert value[..i + 1][..i] == value[..i];
          CutsPrefix(value, i + 1);
        } else {
          assert value[..i] == value;
        }
        var integer := Atoi(temp);
        if integer.None? {
          StoreAllFails(done + [temp], Split(value));
          return Failure(AtoiFailed(temp));
        }
        if index >= |output| {
          StoreAllFails(done + [temp], Split(value));
          return Failure(IndexOutOfRange(index, |output|));
        }
        output := output[index := integer.value];
        index := index + 1;
        assert (done + [temp])[..|done|] == done;
        done := done + [temp];
        temp := "";
      } else {
        assert value[..i + 1][..i] == value[..i];
        temp := temp + [v];
      }
      i := i + 1;
    }
    r := Success(output);
  }

  /** The segments completed in a prefix of s are the first segments of s. */
  lemma {:induction false} CutsPrefix(s: string, i: nat)
    requires i <= |s|
    ensures Cuts(s[..i]).done <= Cuts(s).done <= Split(s)
  {
    if i < |s| {
      var t := s[..|s| - 1];
      CutsPrefix(t, i);
      assert t[..i] == s[..i];
      assert Cuts(t).done <= Cuts(s).done;
    } else {
      assert s[..i] == s;
    }
  }

  /** Once storing a prefix of the segments fails, storing them all fails the same way. */
  lemma {:induction false} StoreAllFails(prefix: seq<string>, segments: seq<string>)
    requires prefix <= segments && StoreAll(prefix).Failure?
    ensures StoreAll(segments) == StoreAll(prefix)
  {
    if |segments| > |prefix| {
      var n := |segments| - 1;
      assert prefix <= segments[..n];
      StoreAllFails(prefix, segments[..n]);
    } else {
      assert prefix == segments;
    }
  }

  // ---------------------------------------------------------------------
  // Properties of the splitter

  /** Storing segments succeeds exactly for one or two numbers, and fills the output in order. */
  lemma {:induction false} StoreAllOutcome(segments: seq<string>)
    ensures StoreAll(segments).Success? <==>
      |segments| <= 2 && forall i :: 0 <= i < |segments| ==> Atoi(segments[i]).Some?
    ensures StoreAll(segments).Success? ==> StoreAll(segments).value == MatrixState(
      [if |segments| >= 1 then Atoi(segments[0]).value else 0,
       if |segments| >= 2 then Atoi(segments[1]).value else 0],
      |segments|)
  {
    if segments != [] {
      var n := |segments| - 1;
      var init := segments[..n];
      StoreAllOutcome(init);
      assert forall i :: 0 <= i < n ==> init[i] == segments[i];
      if StoreAll(init).Failure? {
        if |init| <= 2 {
          var i :| 0 <= i < n && Atoi(init[i]).None?;
          assert Atoi(segments[i]).None?;
        }
      }
    }
  }

  /**
   * The splitter accepts exactly one or two '*'-separated decimal numbers;
   * a missing second number reads as 0. So an empty segment (an empty
   * string, a leading or trailing '*', "**"), a non-numeric segment, or a
   * third segment makes it panic.
   */
  lemma MatrixOutcome(s: string)
    ensures var segments := Split(s);
      && (Matrix(s).Success? <==> |segments| <= 2 && forall i :: 0 <= i < |segments| ==> Atoi(segments[i]).Some?)
      && (Matrix(s).Success? ==>
            Matrix(s).value == [Atoi(segments[0]).value, if |segments| == 2 then Atoi(segments[1]).value else 0])
  {
    StoreAllOutcome(Split(s));
  }

  /** An accepted matrix string always yields two numbers. */
  lemma MatrixPair(s: string)
    requires Matrix(s).Success?
    ensures |Matrix(s).value| == 2
  {
    MatrixOutcome(s);
  }

  /** Without a '*' the whole string is the only segment. */
  lemma {:induction false} SplitWithoutStar(s: string)
    requires forall i :: 0 <= i < |s| ==> s[i] != '*'
    ensures Cuts(s) == Cut([], s)
  {
    if s != [] {
      SplitWithoutStar(s[..|s| - 1]);
      assert s[..|s| - 1] + [s[|s| - 1]] == s;
    }
  }

  /** Cutting at a '*' splits the segments of the two sides apart. */
  lemma {:induction false} SplitAtStar(a: string, b: string)
    ensures Cuts(a + "*" + b) == Cut(Split(a) + Cuts(b).done, Cuts(b).temp)
  {
    if b == [] {
      assert (a + "*" + b)[..|a|] == a;
    } else {
      var n := |b| - 1;
      SplitAtStar(a, b[..n]);
      assert (a + "*" + b)[..|a| + 1 + n] == a + "*" + b[..n];
    }
  }

  /** An empty string, a leading or trailing '*', or "**" yields an empty segment. */
  lemma EmptySegment(a: string, b: string)
    ensures "" in Split("")
    ensures "" in Split("*" + b)
    ensures "" in Split(a + "*")
    ensures "" in Split(a + "**" + b)
    ensures Atoi("") == None
  {
    SplitAtStar("", b);
    assert "" + "*" + b == "*" + b;
    SplitAtStar(a, "");
    assert a + "*" + "" == a + "*";
    SplitAtStar(a, "*" + b);
    SplitAtStar("", b);
    assert a + "*" + ("*" + b) == a + "**" + b;
    assert Split("*" + b)[0] == "";
  }

  /** Itoa never writes a '*'. */
  lemma ItoaHasNoStar(n: int)
    ensures forall i :: 0 <= i < |Itoa(n)| ==> Itoa(n)[i] != '*'
  {
    if n < 0 {
      DigitsDenote(-n);
    } else {
      DigitsDenote(n);
    }
  }

  /** "A*B" written by Itoa splits into the two numerals. */
  lemma SplitPair(a: int, b: int)
    ensures Split(Itoa(a) + "*" + Itoa(b)) == [Itoa(a), Itoa(b)]
  {
    ItoaHasNoStar(a);
    ItoaHasNoStar(b);
    SplitWithoutStar(Itoa(a));
    SplitWithoutStar(Itoa(b));
    SplitAtStar(Itoa(a), Itoa(b));
  }

  /** "A*B" written by Itoa yields [A, B]; a lone "A" yields [A, 0]. */
  lemma MatrixRoundTrip(a: int, b: int)
    ensures Matrix(Itoa(a) + "*" + Itoa(b)) == Success([a, b])
    ensures Matrix(Itoa(a)) == Success([a, 0])
  {
    SplitPair(a, b);
    ItoaHasNoStar(a);
    SplitWithoutStar(Itoa(a));
    assert Split(Itoa(a)) == [Itoa(a)];
    AtoiItoa(a);
    AtoiItoa(b);
    MatrixOutcome(Itoa(a) + "*" + Itoa(b));
    MatrixOutcome(Itoa(a));
  }

  // ---------------------------------------------------------------------
  // parseElement, parseFactory and Parse

  /** The texture string of a payload, or "" when there is none. */
  function Texture(payload: map<string, Value>): string
  {
    if "texture" in payload && payload["texture"].Str? then payload["texture"].s else ""
  }

  /** The panic parseElement raises on payload, if any. */
  function ElementPanic(payload: map<string, Value>): Option<Panic>
  {
    if "texture" in payload && !payload["texture"].Str? then Some(Message("texture" + Errors[0]))
    else if Texture(payload) == "" then Some(Message("Element requires texture id"))
    else None
  }

  /**
   * parseElement: only "texture" is read and it must be a string; the
   * rectangle is left zero, and a missing or empty texture panics.
   */
  method ParseElement(payload: map<string, Value>) returns (r: Result<Element, Panic>)
    ensures r.Failure? <==> ElementPanic(payload).Some?
    ensures r.Failure? ==> r.error == ElementPanic(payload).value
    ensures r.Success? ==>
      && "texture" in payload && payload["texture"].Str?
      && r.value == Element(ZeroRect, payload["texture"].s) && r.value.path != ""
  {
    var e := Element(ZeroRect, "");
    var keys := payload.Keys;
    while keys != {}
      invariant keys <= payload.Keys
      invariant "texture" in payload && "texture" !in keys ==> payload["texture"].Str?
      invariant e.path == if "texture" in payload && "texture" !in keys then payload["texture"].s else ""
      decreases keys
    {
      var key :| key in keys;
      var value := payload[key];
      if key == "texture" {
        if !value.Str? {
          return Failure(Message(key + Errors[0]));
        }
        e := e.(path := value.s);
      }
      keys := keys - {key};
    }
    e := e.(rect := ZeroRect);
    if e.path == "" {
      return Failure(Message("Element requires texture id"));
    }
    return Success(e);
  }

  /** The panic parseFactory raises when it reaches the entry (key, value), if any. */
  function FactoryPanic(key: string, value: Value): Option<Panic>
  {
    if key == "type" || key == "matrix" || key == "align" then
      if !value.Str? then Some(Message(key + Errors[0]))
      else if key == "matrix" && Matrix(value.s).Failure? then Some(Matrix(value.s).error)
      else None
    else if key == "payload" then
      if !value.Object? then Some(Message(key + Errors[2])) else ElementPanic(value.fields)
    else None
  }

  predicate FactoryAccepts(factory: map<string, Value>)
  {
    forall key :: key in factory ==> FactoryPanic(key, factory[key]).None?
  }

  /** The entries of factory under the keys in seen are present and raise no panic. */
  predicate AcceptedKeys(factory: map<string, Value>, seen: set<string>)
  {
    forall key :: key in seen ==> key in factory && FactoryPanic(key, factory[key]).None?
  }

  /**
   * The factory fields once parseFactory has handled the keys in seen:
   * "type" sets the type to 0, and a key not yet handled leaves its field
   * as it was.
   */
  function ParsedFactory(base: FactorySpec, factory: map<string, Value>, seen: set<string>): (f: FactorySpec)
    requires AcceptedKeys(factory, seen)
    ensures "type" !in seen ==> f.kind == base.kind
    ensures "payload" in seen ==> f.element.rect == ZeroRect && f.element.path != ""
    ensures "matrix" in seen ==> |f.matrix| == 2
  {
    assert "matrix" in seen ==> FactoryPanic("matrix", factory["matrix"]).None?;
    var matrix :=
      if "matrix" in seen then (MatrixPair(factory["matrix"].s); Matrix(factory["matrix"].s).value)
      else base.matrix;
    FactorySpec(
      if "type" in seen then 0 else base.kind,
      matrix,
      if "payload" in seen then Element(ZeroRect, factory["payload"].fields["texture"].s) else base.element,
      if "align" in seen then factory["align"].s else base.align)
  }

  /**
   * parseFactory: goes through the entries in any order, panicking at the
   * first one of the wrong type or whose matrix or payload fails.
   */
  method ParseFactory(instruction: Instruction, factory: map<string, Value>) returns (r: Result<Instruction, Panic>)
    ensures r.Success? <==> FactoryAccepts(factory)
    ensures r.Success? ==> r.value == instruction.(factory := ParsedFactory(instruction.factory, factory, factory.Keys))
    ensures r.Failure? ==> exists key :: key in factory && FactoryPanic(key, factory[key]) == Some(r.error)
  {
    var ins := instruction;
    var keys := factory.Keys;
    while keys != {}
      invariant keys <= factory.Keys
      invariant AcceptedKeys(factory, factory.Keys - keys)
      invariant ins == instruction.(factory := ParsedFactory(instruction.factory, factory, factory.Keys - keys))
      decreases keys
    {
      var key :| key in keys;
      var value := factory[key];
      ghost var seen := factory.Keys - keys;
      assert factory.Keys - (keys - {key}) == seen + {key};
      if key == "type" {
        if !value.Str? {
          return Failure(Message(key + Errors[0]));
        }
        ins := ins.(factory := ins.factory.(kind := 0));
      } else if key == "payload" {
        if !value.Object? {
          return Failure(Message(key + Errors[2]));
        }
        var element := ParseElement(value.fields);
        if element.Failure? {
          return Failure(element.error);
        }
        ins := ins.(factory := ins.factory.(element := element.value));
      } else if key == "matrix" {
        if !value.Str? {
          return Failure(Message(key + Errors[0]));
        }
        var output := ParseMatrix(value.s);
        if output.Failure? {
          return Failure(output.error);
        }
        ins := ins.(factory := ins.factory.(matrix := output.value));
      } else if key == "align" {
        if !value.Str? {
          return Failure(Message(key + Errors[0]));
        }
        ins := ins.(factory := ins.factory.(align := value.s));
      }
      keys := keys - {key};
    }
    assert factory.Keys - keys == factory.Keys;
    return Success(ins);
  }

  /** The panic raised at the top-level entry (key, value) can be p. */
  predicate SceneEntryRaises(key: string, value: Value, p: Panic)
  {
    if key == "align" then !value.Str? && p == Message(key + Errors[0])
    else if key == "factory" then
      if !value.Object? then p == Message(key + Errors[2])
      else exists k :: k in value.fields && FactoryPanic(k, value.fields[k]) == Some(p)
    else false
  }

  predicate SceneEntryAccepted(key: string, value: Value)
  {
    && (key == "align" ==> value.Str?)
    && (key == "factory" ==> value.Object? && FactoryAccepts(value.fields))
  }

  predicate SceneAccepts(document: map<string, Value>)
  {
    && "scene" in document && document["scene"].Object?
    && forall key :: key in document["scene"].fields ==> SceneEntryAccepted(key, document["scene"].fields[key])
  }

  /**
   * The instruction an accepted document yields: the alignment container is
   * always 0, and an absent "align" or "factory" leaves the zero value.
   */
  function ParsedScene(document: map<string, Value>): (ins: Instruction)
    requires SceneAccepts(document)
    ensures ins.align.container == 0 && ins.factory.kind == 0 && ins.factory.element.rect == ZeroRect
    ensures "factory" !in document["scene"].fields ==> ins.factory == ZeroInstruction.factory
  {
    var scene := document["scene"].fields;
    assert "factory" in scene ==> SceneEntryAccepted("factory", scene["factory"]);
    Instruction(
      if "align" in scene then AlignSpec(0, scene["align"].s) else ZeroInstruction.align,
      if "factory" in scene then ParsedFactory(ZeroInstruction.factory, scene["factory"].fields, scene["factory"].fields.Keys) else ZeroInstruction.factory)
  }

  /**
   * Parse: type-asserts document["scene"] to a map, then goes through its
   * entries in any order; keys other than "align" and "factory" are skipped.
   * It never returns an error value: every failure is a panic.
   */
  method Parse(document: map<string, Value>) returns (r: Result<Instruction, Panic>)
    ensures r.Success? <==> SceneAccepts(document)
    ensures r.Success? ==> r.value == ParsedScene(document)
    ensures r.Failure? && !("scene" in document && document["scene"].Object?) ==> r.error == BadAssertion
    ensures r.Failure? && "scene" in document && document["scene"].Object? ==>
      exists key :: key in document["scene"].fields && SceneEntryRaises(key, document["scene"].fields[key], r.error)
  {
    if "scene" !in document || !document["scene"].Object? {
      return Failure(BadAssertion);
    }
    var scene := document["scene"].fields;
    var ins := ZeroInstruction;
    var keys := scene.Keys;
    while keys != {}
      invariant keys <= scene.Keys
      invariant forall key :: key in scene && key !in keys ==> SceneEntryAccepted(key, scene[key])
      invariant ins.align ==
        if "align" in scene && "align" !in keys then AlignSpec(0, scene["align"].s) else ZeroInstruction.align
      invariant ins.factory ==
        if "factory" in scene && "factory" !in keys then ParsedFactory(ZeroInstruction.factory, scene["factory"].fields, scene["factory"].fields.Keys)
        else ZeroInstruction.factory
      decreases keys
    {
      var key :| key in keys;
      var value := scene[key];
      if key == "align" {
        if !value.Str? {
          return Failure(Message(key + Errors[0]));
        }
        ins := ins.(align := AlignSpec(0, value.s));
      } else if key == "factory" {
        if !value.Object? {
          return Failure(Message(key + Errors[2]));
        }
        var parsed := ParseFactory(ins, value.fields);
        if parsed.Failure? {
          return Failure(parsed.error);
        }
        ins := parsed.value;
      }
      keys := keys - {key};
    }
    return Success(ins);
  }
}
