/**
 * Function-call nodes of the formula AST and the factory that recognises a
 * function-call token (optionally preceded by a unary minus and/or an
 * implicit-intersection `@`) and builds the node for it.
 *
 * The function registry is a map from upper-case name to executor; an
 * executor's `calculate` is left uninterpreted (any total function).
 */
module FunctionNode {
  import opened Wrappers
  import opened JsString

  /** Typed formula error values. */
  datatype ErrorType = Name | Value | Ref | Div0 | NA | Num | Null | GenericError

  /** A resolved formula value. */
  datatype Value =
    | Number(n: real)
    | Text(s: string)
    | Boolean(b: bool)
    | ErrorValue(error: ErrorType)
    | ArrayValue(rows: seq<seq<Value>>)
    | ReferenceValue(address: string)

  /**
   * What an executor's `calculate` hands back: a plain value, or an async
   * object, here already resolved to the value its `getValue()` awaits.
   */
  datatype Variant = Plain(value: Value) | AsyncObject(resolved: Value)

  /** A registered function: its two declared flags and its computation. */
  datatype Executor = Executor(isAsync: bool, isAddress: bool, calculate: seq<Variant> -> Variant)

  /** Status `executeAsync` resolves to. */
  datatype PromiseStatus = Success

  /** The node kinds this file builds. */
  datatype NodeKind =
    | FunctionKind(executor: Executor)
    | PrefixKind(operator: string, prefixExecutor: Option<Executor>)
    | ErrorKind(error: ErrorType)

  /** Node types, as far as the z-index lookup needs them. */
  datatype NodeType = FunctionNodeType | OtherNodeType(name: string)

  /** The argument a factory is asked to recognise: a raw string or a lexer node's token. */
  datatype FactoryParam = PlainText(text: string) | LexerToken(token: string)

  const MinusToken: char := '-'
  const AtToken: char := '@'
  /** Registry name of the executor a unary-minus prefix node applies. */
  const MinusFunctionName: string := "MINUS"

  /**
   * The arguments handed to `calculate`: the children's values in child
   * order, with the children that hold no value left out.
   */
  function Arguments(values: seq<Option<Variant>>): seq<Variant>
  {
    if values == [] then []
    else
      var last := values[|values| - 1];
      Arguments(values[..|values| - 1]) + (if last.Some? then [last.value] else [])
  }

  /** Positions of the children that hold a value, in increasing order. */
  function ValuePositions(values: seq<Option<Variant>>): seq<nat>
  {
    if values == [] then []
    else
      var n := |values| - 1;
      ValuePositions(values[..n]) + (if values[n].Some? then [n] else [])
  }

  /**
   * `Arguments` is exactly the subsequence of present values: its k-th
   * entry is the value at the k-th present position, those positions are
   * strictly increasing, and every present position is among them.
   */
  lemma {:induction false} ArgumentsAreThePresentValues(values: seq<Option<Variant>>)
    ensures |ValuePositions(values)| == |Arguments(values)|
    ensures forall k :: 0 <= k < |ValuePositions(values)| ==>
      ValuePositions(values)[k] < |values| && values[ValuePositions(values)[k]] == Some(Arguments(values)[k])
    ensures forall k, l :: 0 <= k < l < |ValuePositions(values)| ==> ValuePositions(values)[k] < ValuePositions(values)[l]
    ensures forall j :: 0 <= j < |values| && values[j].Some? ==> j in ValuePositions(values)
  {
    if values != [] {
      var n := |values| - 1;
      var init := values[..n];
      ArgumentsAreThePresentValues(init);
      forall j | 0 <= j < n && values[j].Some?
        ensures j in ValuePositions(values)
      {
        assert init[j] == values[j];
      }
    }
  }

  /**
   * No placeholder is passed: there are never more arguments than children,
   * and as many exactly when every child holds a value.
   */
  lemma {:induction false} ArgumentCount(values: seq<Option<Variant>>)
    ensures |Arguments(values)| <= |values|
    ensures |Arguments(values)| == |values| <==> forall j :: 0 <= j < |values| ==> values[j].Some?
  {
    if values != [] {
      var n := |values| - 1;
      ArgumentCount(values[..n]);
      if forall j :: 0 <= j < |values| ==> values[j].Some? {
        assert forall j :: 0 <= j < n ==> values[..n][j].Some?;
      }
    }
  }

  /** When every child holds a value, all of them are passed, in order. */
  lemma {:induction false} ArgumentsWhenAllPresent(values: seq<Option<Variant>>)
    requires forall j :: 0 <= j < |values| ==> values[j].Some?
    ensures |Arguments(values)| == |values|
    ensures forall j :: 0 <= j < |values| ==> Arguments(values)[j] == values[j].value
  {
    if values != [] {
      ArgumentsWhenAllPresent(values[..|values| - 1]);
    }
  }

  /** Children holding no value do not shift or change the other arguments. */
  lemma {:induction false} ArgumentsOfConcat(a: seq<Option<Variant>>, b: seq<Option<Variant>>)
    ensures Arguments(a + b) == Arguments(a) + Arguments(b)
  {
    if b == [] {
      assert a + b == a;
    } else {
      var n := |b| - 1;
      assert (a + b)[..|a + b| - 1] == a + b[..n];
      ArgumentsOfConcat(a, b[..n]);
    }
  }

  /** The value `executeAsync` stores for a calculation result: an async object is awaited. */
  function Awaited(result: Variant): (r: Variant)
    ensures r.Plain?
    ensures result.Plain? ==> r == result
    ensures result.AsyncObject? ==> r.value == result.resolved
  {
    match result
    case Plain(_) => result
    case AsyncObject(v) => Plain(v)
  }

  /** The cached values of a sequence of nodes, in order. */
  ghost function ValuesOf(nodes: seq<AstNode>): seq<Option<Variant>>
    reads nodes
  {
    if nodes == [] then [] else ValuesOf(nodes[..|nodes| - 1]) + [nodes[|nodes| - 1].value]
  }

  /** A formula AST node: function call, prefix operator or error. */
  class AstNode {
    var token: string
    const kind: NodeKind
    var children: seq<AstNode>
    var parent: AstNode?
    var value: Option<Variant>
    var isAsync: bool
    var isAddress: bool

    /** `new FunctionNode(token, executor)`: the flags follow the executor's declaration. */
    constructor Function(token: string, executor: Executor)
      ensures this.token == token && kind == FunctionKind(executor)
      ensures isAsync == executor.isAsync && isAddress == executor.isAddress
      ensures children == [] && parent == null && value == None
    {
      this.token := token;
      kind := FunctionKind(executor);
      children := [];
      parent := null;
      value := None;
      isAsync := false;
      isAddress := false;
      new;
      if executor.isAsync {
        isAsync := true;
      }
      if executor.isAddress {
        isAddress := true;
      }
    }

    /** `new PrefixNode(injector, operator, executor)`. */
    constructor Prefix(operator: string, executor: Option<Executor>)
      ensures token == operator && kind == PrefixKind(operator, executor)
      ensures children == [] && parent == null && value == None && !isAsync && !isAddress
    {
      token := operator;
      kind := PrefixKind(operator, executor);
      children := [];
      parent := null;
      value := None;
      isAsync := false;
      isAddress := false;
    }

    /** `ErrorNode.create(error)`: a node whose value is that error. */
    constructor Error(error: ErrorType)
      ensures kind == ErrorKind(error) && value == Some(Plain(ErrorValue(error)))
      ensures children == [] && parent == null && !isAsync && !isAddress
    {
      token := "";
      kind := ErrorKind(error);
      children := [];
      parent := null;
      value := Some(Plain(ErrorValue(error)));
      isAsync := false;
      isAddress := false;
    }

    method SetParent(node: AstNode)
      modifies this`parent
      ensures parent == node
    {
      parent := node;
    }

    /** Collects the children's present values in order (the loop shared by both entry points). */
    method CollectVariants() returns (variants: seq<Variant>)
      ensures variants == Arguments(ValuesOf(children))
    {
      variants := [];
      var i := 0;
      while i < |children|
        invariant 0 <= i <= |children|
        invariant variants == Arguments(ValuesOf(children[..i]))
      {
        var childValue := children[i].value;
        assert children[..i + 1][..i] == children[..i];
        if childValue.Some? {
          variants := variants + [childValue.value];
        }
        i := i + 1;
      }
      assert children[..i] == children;
    }

    /** `execute()`: the result of `calculate` is stored as it is, async object or not. */
    method Execute()
      requires kind.FunctionKind?
      modifies this`value
      ensures value == Some(kind.executor.calculate(Arguments(old(ValuesOf(children)))))
    {
      var variants := CollectVariants();
      var resultVariant := kind.executor.calculate(variants);
      value := Some(resultVariant);
    }

    /** `executeAsync()`: an async result is awaited before it is stored; always reports success. */
    method ExecuteAsync() returns (status: PromiseStatus)
      requires kind.FunctionKind?
      modifies this`value
      ensures value == Some(Awaited(kind.executor.calculate(Arguments(old(ValuesOf(children))))))
      ensures status == Success
    {
      var variants := CollectVariants();
      var resultVariant := kind.executor.calculate(variants);
      if resultVariant.AsyncObject? {
        value := Some(Plain(resultVariant.resolved));
      } else {
        value := Some(resultVariant);
      }
      status := Success;
    }
  }

  /** The text a lexer token is matched on: trimmed, then upper-cased. */
  function Normalize(token: string): string {
    ToUpper(Trim(token))
  }

  /**
   * `tokenTrim.slice(0, 2)`, which counts UTF-16 code units: the first two
   * characters, or fewer, except that a first character outside the Basic
   * Multilingual Plane fills both units alone. When only the second
   * character lies outside that plane, just its leading surrogate falls in
   * the window; it is kept whole here, which changes nothing for the
   * window's one use, since no such character is `-` or `@`.
   */
  function PrefixWindow(t: string): (w: string)
    ensures |w| <= 2 && |w| <= |t| && w == t[..|w|]
    ensures t != [] && IsAstral(t[0]) ==> w == t[..1]
    ensures t != [] && !IsAstral(t[0]) ==> |w| == if |t| < 2 then |t| else 2
  {
    if t != [] && IsAstral(t[0]) then t[..1]
    else t[..if |t| < 2 then |t| else 2]
  }

  predicate HasMinusPrefix(t: string) {
    MinusToken in PrefixWindow(t)
  }

  predicate HasAtPrefix(t: string) {
    AtToken in PrefixWindow(t)
  }

  /**
   * How many characters are sliced off: one per prefix kind found in the
   * first two characters. It never exceeds the window, hence never the text.
   */
  function PrefixLength(t: string): (n: nat)
    ensures n <= |PrefixWindow(t)| <= 2
    ensures n <= |t|
  {
    (if HasMinusPrefix(t) then 1 else 0) + (if HasAtPrefix(t) then 1 else 0)
  }

  /**
   * Every character the prefix count cuts off is one UTF-16 code unit
   * long, so `slice(sliceLength)`, which counts code units, cuts exactly
   * `PrefixLength` characters.
   */
  lemma PrefixCutIsOneUnitPerCharacter(t: string)
    ensures forall k :: 0 <= k < PrefixLength(t) ==> !IsAstral(t[k])
  {
    if PrefixLength(t) == 2 {
      assert PrefixWindow(t) == t[..2];
      assert {t[0], t[1]} == {MinusToken, AtToken};
    }
  }

  /** The registry name a lexer token is looked up under. */
  function FunctionName(token: string): (name: string)
    ensures var t := Normalize(token); |name| <= |t| && name == t[|t| - |name|..]
  {
    var t := Normalize(token);
    t[PrefixLength(t)..]
  }

  /** The name is the normalized token with exactly `PrefixLength` leading characters removed. */
  lemma FunctionNameIsSuffix(token: string)
    ensures var t := Normalize(token);
      PrefixLength(t) == (if HasMinusPrefix(t) then 1 else 0) + (if HasAtPrefix(t) then 1 else 0)
      && t == t[..PrefixLength(t)] + FunctionName(token)
      && |FunctionName(token)| == |t| - PrefixLength(t)
  {
  }

  /** A token that trimming and upper-casing leave alone: no blank ends, no lower-case ASCII letter. */
  predicate IsNormalForm(token: string) {
    && (token != [] ==> !IsWhitespace(token[0]) && !IsWhitespace(token[|token| - 1]))
    && forall k :: 0 <= k < |token| ==> !('a' <= token[k] <= 'z')
  }

  /** A token in normal form is its own normalization. */
  lemma NormalizeUntouched(token: string)
    requires IsNormalForm(token)
    ensures Normalize(token) == token
  {
    assert [] + token + [] == token;
    TrimSurrounded([], token, []);
    ToUpperUntouched(token);
  }

  /** Two characters put in front of a normal-form name leave it in normal form when they are neither blank nor lower case. */
  lemma PrefixedNormalForm(a: char, b: char, name: string)
    requires !IsWhitespace(a) && !IsWhitespace(b) && !('a' <= a <= 'z') && !('a' <= b <= 'z')
    requires IsNormalForm(name)
    ensures IsNormalForm([a, b] + name)
    ensures PrefixWindow([a, b] + name) == if IsAstral(a) then [a] else [a, b]
  {
    var t := [a, b] + name;
    forall k | 0 <= k < |t| ensures !('a' <= t[k] <= 'z') {
      if k >= 2 {
        assert t[k] == name[k - 2];
      }
    }
    assert t[..1] == [a];
    assert t[..2] == [a, b];
  }

  /** Minus and at in the window are both stripped, in either order, whatever name follows. */
  lemma BothPrefixesStripped(a: char, b: char, name: string)
    requires (a == MinusToken && b == AtToken) || (a == AtToken && b == MinusToken)
    requires IsNormalForm(name)
    ensures FunctionName([a, b] + name) == name
  {
    var t := [a, b] + name;
    PrefixedNormalForm(a, b, name);
    NormalizeUntouched(t);
    assert HasMinusPrefix(t) && HasAtPrefix(t);
    assert t[2..] == name;
  }

  /**
   * A minus in the second position counts as a prefix, and the character
   * cut is the first one, whatever it is; with a doubled minus only one of
   * the two goes. A first character outside the Basic Multilingual Plane
   * fills the two-unit window alone, so then the minus is not seen and
   * nothing is cut.
   */
  lemma SecondPositionMinusCutsFirstCharacter(c: char, name: string)
    requires c != AtToken && !IsWhitespace(c) && !('a' <= c <= 'z')
    requires IsNormalForm(name)
    ensures FunctionName([c, '-'] + name) == if IsAstral(c) then [c, '-'] + name else "-" + name
  {
    PrefixedNormalForm(c, '-', name);
    NormalizeUntouched([c, '-'] + name);
    if IsAstral(c) {
      assert !HasMinusPrefix([c, '-'] + name) && !HasAtPrefix([c, '-'] + name);
    } else {
      assert ([c, '-'] + name)[1..] == "-" + name;
    }
  }

  /** A token opening with a character outside the Basic Multilingual Plane is looked up as it is. */
  lemma AstralFirstCharacterCutsNothing(token: string)
    requires IsNormalForm(token)
    requires token != [] && IsAstral(token[0])
    ensures FunctionName(token) == token
  {
    NormalizeUntouched(token);
    assert PrefixWindow(token) == [token[0]];
  }

  /** A token whose first two characters are neither minus nor at is looked up as it is. */
  lemma UnprefixedNameUnchanged(token: string)
    requires IsNormalForm(token)
    requires forall k :: 0 <= k < |token| && k < 2 ==> token[k] != MinusToken && token[k] != AtToken
    ensures FunctionName(token) == token
  {
    NormalizeUntouched(token);
    assert !HasMinusPrefix(token) && !HasAtPrefix(token);
  }

  /** `FunctionNodeFactory`: builds function nodes against one registry. */
  class FunctionNodeFactory {
    const functionService: map<string, Executor>

    constructor(functionService: map<string, Executor>)
      ensures this.functionService == functionService
    {
      this.functionService := functionService;
    }

    /**
     * `zIndex`: the `FUNCTION` entry of the order map when present and
     * nonzero (JavaScript `||` treats 0 as absent), the default otherwise.
     */
    static function ZIndex(orderMap: map<NodeType, int>, defaultZIndex: int): (z: int)
      ensures FunctionNodeType in orderMap && orderMap[FunctionNodeType] != 0 ==> z == orderMap[FunctionNodeType]
      ensures FunctionNodeType !in orderMap || orderMap[FunctionNodeType] == 0 ==> z == defaultZIndex
    {
      if FunctionNodeType in orderMap && orderMap[FunctionNodeType] != 0 then orderMap[FunctionNodeType]
      else defaultZIndex
    }

    /** `create(token)`: an error node of type NAME for an unknown name, else a function node. */
    method Create(token: string) returns (node: AstNode)
      ensures fresh(node)
      ensures token !in functionService ==>
        && node.kind == ErrorKind(Name) && node.value == Some(Plain(ErrorValue(Name)))
        && node.parent == null && node.children == []
      ensures token in functionService ==>
        && node.kind == FunctionKind(functionService[token]) && node.token == token
        && node.isAsync == functionService[token].isAsync
        && node.isAddress == functionService[token].isAddress
        && node.parent == null && node.children == [] && node.value == None
    {
      if token !in functionService {
        node := new AstNode.Error(Name);
        return;
      }
      node := new AstNode.Function(token, functionService[token]);
    }

    /**
     * `checkAndCreateNodeType(param)`: nothing for a plain string or for a
     * token whose stripped name is unregistered; otherwise the function
     * node, chained by its parent pointer under the `@` prefix node if any,
     * else under the minus prefix node if any; the `@` node in turn hangs
     * under the minus node when both were found.
     */
    method CheckAndCreateNodeType(param: FactoryParam) returns (node: AstNode?)
      ensures param.PlainText? ==> node == null
      ensures param.LexerToken? ==> (node != null <==> FunctionName(param.token) in functionService)
      ensures node != null ==>
        var name := FunctionName(param.token);
        var t := Normalize(param.token);
        && fresh(node)
        && node.kind == FunctionKind(functionService[name]) && node.token == name
        && node.isAsync == functionService[name].isAsync
        && node.isAddress == functionService[name].isAddress
        && node.children == [] && node.value == None
        && (HasAtPrefix(t) ==>
              && node.parent != null && fresh(node.parent)
              && node.parent.kind == PrefixKind([AtToken], None)
              && (HasMinusPrefix(t) ==>
                    && node.parent.parent != null && fresh(node.parent.parent)
                    && node.parent.parent.kind == PrefixKind([MinusToken], Lookup(MinusFunctionName))
                    && node.parent.parent.parent == null)
              && (!HasMinusPrefix(t) ==> node.parent.parent == null))
        && (!HasAtPrefix(t) && HasMinusPrefix(t) ==>
              && node.parent != null && fresh(node.parent)
              && node.parent.kind == PrefixKind([MinusToken], Lookup(MinusFunctionName))
              && node.parent.parent == null)
        && (!HasAtPrefix(t) && !HasMinusPrefix(t) ==> node.parent == null)
    {
      if param.PlainText? {
        return null;
      }
      var tokenTrim := Normalize(param.token);
      ghost var t := tokenTrim;
      var minusPrefixNode: AstNode? := null;
      var atPrefixNode: AstNode? := null;
      var prefix := PrefixWindow(tokenTrim);
      var sliceLength := 0;
      if MinusToken in prefix {
        var functionExecutor := Lookup(MinusFunctionName);
        minusPrefixNode := new AstNode.Prefix([MinusToken], functionExecutor);
        sliceLength := sliceLength + 1;
      }

      if AtToken in prefix {
        atPrefixNode := new AstNode.Prefix([AtToken], None);
        if minusPrefixNode != null {
          atPrefixNode.SetParent(minusPrefixNode);
        }
        sliceLength := sliceLength + 1;
      }

      assert sliceLength == PrefixLength(t) by { FunctionNameIsSuffix(param.token); }
      if sliceLength > 0 {
        tokenTrim := tokenTrim[sliceLength..];
      }
      assert tokenTrim == FunctionName(param.token);

      if tokenTrim in functionService {
        var functionNode := Create(tokenTrim);
        if atPrefixNode != null {
          functionNode.SetParent(atPrefixNode);
        } else if minusPrefixNode != null {
          functionNode.SetParent(minusPrefixNode);
        }
        return functionNode;
      }
      return null;
    }

    /** `getExecutor(name)`: the registered executor, if any. */
    function Lookup(name: string): (e: Option<Executor>)
      ensures e.Some? <==> name in functionService
      ensures e.Some? ==> e.value == functionService[name]
    {
      if name in functionService then Some(functionService[name]) else None
    }
  }
}
