/**
 * The tokenizer and the recursive-descent parser of the textual assembly language.
 *
 * `Lex` gives the meaning of the tokenizer loop and the `...At` functions give the meaning of
 * each parser routine over a cursor position: they return the parsed value together with the
 * position the cursor is left on. `Tokenize` and the `Parser` class are the step-by-step code,
 * proved to compute exactly those results.
 */
module Parser {
  import opened Wrappers
  import opened Scalars
  import opened TypeIds
  import opened Text
  import opened Program

  datatype Token =
    | LeftCurlyParentheses
    | RightCurlyParentheses
    | LeftParentheses
    | RightParentheses
    | Int32Literal(value: I32)
    | Float32Literal(bits: Float32Bits)
    | Identifier(name: string)
    | DefineNumberOfLocals
    | DefineLocal
    | FunctionKeyword
    | ClassKeyword
    | Colon
    | End

  datatype ParserError =
    | FloatConvertError
    | IntConvertError
    | AlreadyHasDot
    | ReachedEndOfTokens
    | ExpectedFunctionOrClass
    | ExpectedIdentifier
    | ExpectedInt32
    | ExpectedFloat32
    | ExpectedLeftParentheses
    | ExpectedRightParentheses
    | ExpectedLeftCurlyParentheses
    | ExpectedRightCurlyParentheses
    | NotDefinedType(typeName: string)
    | NotDefinedInstruction(instructionName: string)
    | UndefinedModifier
    | UntypedLocal(local: nat)
    | ExpectedColon
      /** Not an error value of the source: there the program panics (an out-of-range `.local`
        * index, or a negative `.locals` count turned into a huge `usize`). */
    | Panic

  // ---------------------------------------------------------------------------------------
  // Tokenizer
  // ---------------------------------------------------------------------------------------

  /** Characters that continue a word: letters, digits and `_`. */
  predicate IsWordChar(c: char) { IsLetter(c) || IsDigit(c) || c == '_' }

  /** The end of the longest run of word characters starting at `j`. */
  function WordEnd(text: string, j: nat): (k: nat)
    requires j <= |text|
    ensures j <= k <= |text|
    ensures forall m :: j <= m < k ==> IsWordChar(text[m])
    ensures k == |text| || !IsWordChar(text[k])
    decreases |text| - j
  {
    if j < |text| && IsWordChar(text[j]) then WordEnd(text, j + 1) else j
  }

  /**
   * The end of the digits and dots of a number continuing at `j`, and whether it holds a dot.
   * A second dot fails at once.
   */
  function NumberEnd(text: string, j: nat, hasDot: bool): (r: Result<(nat, bool), ParserError>)
    requires j <= |text|
    ensures r.Ok? ==> j <= r.value.0 <= |text| && (hasDot ==> r.value.1)
    ensures r.Ok? ==> r.value.0 == |text| || !(IsDigit(text[r.value.0]) || text[r.value.0] == '.')
    ensures r.Ok? && !r.value.1 ==> forall m :: j <= m < r.value.0 ==> IsDigit(text[m])
    ensures r.Err? ==> r.error == AlreadyHasDot
    decreases |text| - j
  {
    if j < |text| && IsDigit(text[j]) then NumberEnd(text, j + 1, hasDot)
    else if j < |text| && text[j] == '.' then (if hasDot then Err(AlreadyHasDot) else NumberEnd(text, j + 1, true))
    else Ok((j, hasDot))
  }

  /** The token of a word that starts with a letter. */
  function WordToken(word: string): Token {
    if word == "func" then FunctionKeyword
    else if word == "class" then ClassKeyword
    else Identifier(word)
  }

  /**
   * The token of a number. A dotted number is converted by `floatBits`, which stands for the
   * float parser; it accepts every digit run with one dot, so `FloatConvertError` never arises.
   */
  function NumberToken(number: string, hasDot: bool, floatBits: string -> Float32Bits): (r: Result<Token, ParserError>)
    requires hasDot || AllDigits(number)
  {
    if hasDot then Ok(Float32Literal(floatBits(number)))
    else if DecimalValue(number) < 0x8000_0000 then Ok(Int32Literal(DecimalValue(number)))
    else Err(IntConvertError)
  }

  /** The token of a word that starts with a dot. */
  function ModifierToken(word: string): (r: Result<Token, ParserError>) {
    if word == ".locals" then Ok(DefineNumberOfLocals)
    else if word == ".local" then Ok(DefineLocal)
    else Err(UndefinedModifier)
  }

  /** The token of a single punctuation character, if it is one. */
  function PunctuationToken(c: char): (r: Option<Token>) {
    if c == '(' then Some(LeftParentheses)
    else if c == ')' then Some(RightParentheses)
    else if c == '{' then Some(LeftCurlyParentheses)
    else if c == '}' then Some(RightCurlyParentheses)
    else if c == ':' then Some(Colon)
    else None
  }

  /** `prefix` followed by the tokens of `rest`, or the failure of `rest`. */
  function Then(prefix: seq<Token>, rest: Result<seq<Token>, ParserError>): Result<seq<Token>, ParserError> {
    if rest.Ok? then Ok(prefix + rest.value) else rest
  }

  lemma ThenNothing(rest: Result<seq<Token>, ParserError>)
    ensures Then([], rest) == rest
  {
    if rest.Ok? {
      assert [] + rest.value == rest.value;
    }
  }

  lemma ThenThen(a: seq<Token>, b: seq<Token>, rest: Result<seq<Token>, ParserError>)
    ensures Then(a, Then(b, rest)) == Then(a + b, rest)
  {
    if rest.Ok? {
      assert a + (b + rest.value) == (a + b) + rest.value;
    }
  }

  /**
   * The token (if any) that starts at position `i`, and the position after it. Letters start a
   * word, digits a number, a dot a modifier; punctuation is one token; anything else is dropped.
   */
  function ScanAt(text: string, i: nat, floatBits: string -> Float32Bits): (r: Result<(seq<Token>, nat), ParserError>)
    requires i < |text|
    ensures r.Ok? ==> i < r.value.1 <= |text| && |r.value.0| <= 1
  {
    var c := text[i];
    if IsLetter(c) then
      var j := WordEnd(text, i + 1);
      Ok(([WordToken(text[i..j])], j))
    else if IsDigit(c) then
      var (j, hasDot) :- NumberEnd(text, i + 1, false);
      assert hasDot || AllDigits(text[i..j]) by {
        if !hasDot {
          forall m | 0 <= m < j - i ensures IsDigit(text[i..j][m]) {
            assert text[i..j][m] == text[i + m];
          }
        }
      }
      var t :- NumberToken(text[i..j], hasDot, floatBits);
      Ok(([t], j))
    else if c == '.' then
      var j := WordEnd(text, i + 1);
      var t :- ModifierToken(text[i..j]);
      Ok(([t], j))
    else if PunctuationToken(c).Some? then Ok(([PunctuationToken(c).value], i + 1))
    else Ok(([], i + 1))
  }

  /** The tokens of `text` from position `i` on. */
  function Lex(text: string, i: nat, floatBits: string -> Float32Bits): Result<seq<Token>, ParserError>
    requires i <= |text|
    decreases |text| - i
  {
    if i == |text| then Ok([End])
    else
      var (token, j) :- ScanAt(text, i, floatBits);
      Then(token, Lex(text, j, floatBits))
  }

  /** The run of word characters after `start`, as the inner loops of the tokenizer collect it. */
  method ScanWord(text: string, start: nat) returns (word: string, i: nat)
    requires start < |text|
    ensures i == WordEnd(text, start + 1) && word == text[start..i]
  {
    word := [text[start]];
    i := start + 1;
    while i < |text| && IsWordChar(text[i])
      invariant start < i <= |text|
      invariant word == text[start..i]
      invariant WordEnd(text, start + 1) == WordEnd(text, i)
      decreases |text| - i
    {
      word := word + [text[i]];
      i := i + 1;
    }
  }

  /** The digits and dots after `start`; a second dot fails. */
  method ScanNumber(text: string, start: nat) returns (r: Result<(nat, bool), ParserError>, number: string)
    requires start < |text|
    ensures r == NumberEnd(text, start + 1, false)
    ensures r.Ok? ==> number == text[start..r.value.0]
  {
    number := [text[start]];
    var hasDot := false;
    var i := start + 1;
    while i < |text| && (IsDigit(text[i]) || text[i] == '.')
      invariant start < i <= |text|
      invariant number == text[start..i]
      invariant NumberEnd(text, start + 1, false) == NumberEnd(text, i, hasDot)
      decreases |text| - i
    {
      if text[i] == '.' {
        if hasDot {
          return Err(AlreadyHasDot), number;
        }
        hasDot := true;
      }
      number := number + [text[i]];
      i := i + 1;
    }
    r := Ok((i, hasDot));
  }

  /** One pass of the tokenizer loop: the token starting at `start`, if any. */
  method ScanToken(text: string, start: nat, floatBits: string -> Float32Bits) returns (r: Result<(seq<Token>, nat), ParserError>)
    requires start < |text|
    ensures r == ScanAt(text, start, floatBits)
  {
    var current := text[start];
    if IsLetter(current) {
      var identifier, i := ScanWord(text, start);
      r := Ok(([WordToken(identifier)], i));
    } else if IsDigit(current) {
      var end, number := ScanNumber(text, start);
      var scanned :- end;
      var (i, hasDot) := scanned;
      assert hasDot || AllDigits(number) by {
        if !hasDot {
          forall m | 0 <= m < |number| ensures IsDigit(number[m]) {
            assert number[m] == text[start + m];
          }
        }
      }
      var token :- NumberToken(number, hasDot, floatBits);
      r := Ok(([token], i));
    } else if current == '.' {
      var identifier, i := ScanWord(text, start);
      var token :- ModifierToken(identifier);
      r := Ok(([token], i));
    } else if PunctuationToken(current).Some? {
      r := Ok(([PunctuationToken(current).value], start + 1));
    } else {
      r := Ok(([], start + 1));
    }
  }

  /** The tokenizer loop: one token per word, number, modifier or punctuation mark, then `End`. */
  method Tokenize(text: string, floatBits: string -> Float32Bits) returns (r: Result<seq<Token>, ParserError>)
    ensures r == Lex(text, 0, floatBits)
  {
    var tokens: seq<Token> := [];
    var i := 0;
    ThenNothing(Lex(text, 0, floatBits));
    while i < |text|
      invariant 0 <= i <= |text|
      invariant Lex(text, 0, floatBits) == Then(tokens, Lex(text, i, floatBits))
      decreases |text| - i
    {
      var scanned :- ScanToken(text, i, floatBits);
      var (token, j) := scanned;
      ThenThen(tokens, token, Lex(text, j, floatBits));
      tokens := tokens + token;
      i := j;
    }
    assert Then(tokens, Ok([End])).value == tokens + [End];
    tokens := tokens + [End];
    r := Ok(tokens);
  }

  // ---------------------------------------------------------------------------------------
  // Parser: the meaning of each routine over a cursor position
  // ---------------------------------------------------------------------------------------

  /** A parsed value and the position the cursor is left on. */
  datatype Parsed<T> = Parsed(value: T, next: nat)

  /**
   * `parse_type`: the type named by an identifier, through `TypeId::from_str`, which no file of
   * this revision defines (`model/typesystem.rs` declares no `TypeId`); the parser's tests name
   * only `Int`. The other names of this table are this model's choice, one per type of the model.
   */
  function ParseType(name: string): (r: Result<TypeId, ParserError>)
    ensures r.Err? ==> r.error == NotDefinedType(name)
  {
    if name == "Void" then Ok(Void)
    else if name == "Int" then Ok(Int32)
    else if name == "Float" then Ok(Float32)
    else if name == "Bool" then Ok(Bool)
    else Err(NotDefinedType(name))
  }

  /** Moving the cursor one token on; moving past the last token fails. */
  function NextAt(tokens: seq<Token>, p: int): (r: Result<nat, ParserError>)
    requires -1 <= p
    ensures r.Ok? <==> p + 1 < |tokens|
    ensures r.Ok? ==> r.value == p + 1
    ensures r.Err? ==> r.error == ReachedEndOfTokens
  {
    if p + 1 < |tokens| then Ok(p + 1) else Err(ReachedEndOfTokens)
  }

  function NextIdentifierAt(tokens: seq<Token>, p: nat): (r: Result<Parsed<string>, ParserError>)
    requires p < |tokens|
    ensures r.Ok? ==> tokens[p] == Identifier(r.value.value) && r.value.next == p + 1 < |tokens|
    ensures !tokens[p].Identifier? ==> r == Err(ExpectedIdentifier)
  {
    match tokens[p]
    case Identifier(name) =>
      var q :- NextAt(tokens, p);
      Ok(Parsed(name, q))
    case _ => Err(ExpectedIdentifier)
  }

  function NextI32At(tokens: seq<Token>, p: nat): (r: Result<Parsed<I32>, ParserError>)
    requires p < |tokens|
    ensures r.Ok? ==> tokens[p] == Int32Literal(r.value.value) && r.value.next == p + 1 < |tokens|
    ensures !tokens[p].Int32Literal? ==> r == Err(ExpectedInt32)
  {
    match tokens[p]
    case Int32Literal(v) =>
      var q :- NextAt(tokens, p);
      Ok(Parsed(v, q))
    case _ => Err(ExpectedInt32)
  }

  function NextF32At(tokens: seq<Token>, p: nat): (r: Result<Parsed<Float32Bits>, ParserError>)
    requires p < |tokens|
    ensures r.Ok? ==> tokens[p] == Float32Literal(r.value.value) && r.value.next == p + 1 < |tokens|
    ensures !tokens[p].Float32Literal? ==> r == Err(ExpectedFloat32)
  {
    match tokens[p]
    case Float32Literal(v) =>
      var q :- NextAt(tokens, p);
      Ok(Parsed(v, q))
    case _ => Err(ExpectedFloat32)
  }

  function NextTypeIdAt(tokens: seq<Token>, p: nat): (r: Result<Parsed<TypeId>, ParserError>)
    requires p < |tokens|
    ensures r.Ok? ==> tokens[p].Identifier? && ParseType(tokens[p].name) == Ok(r.value.value)
    ensures r.Ok? ==> r.value.next == p + 1 < |tokens|
  {
    var name :- NextIdentifierAt(tokens, p);
    var t :- ParseType(name.value);
    Ok(Parsed(t, name.next))
  }

  /**
   * A list of type names closed by `)`: parameters of a function or of a called signature.
   * Any other token gives `unexpected`.
   */
  function TypeListAt(tokens: seq<Token>, p: nat, parsed: seq<TypeId>, unexpected: ParserError): (r: Result<Parsed<seq<TypeId>>, ParserError>)
    requires p < |tokens|
    ensures r.Ok? ==> p < r.value.next < |tokens|
    decreases |tokens| - p
  {
    match tokens[p]
    case RightParentheses =>
      var q :- NextAt(tokens, p);
      Ok(Parsed(parsed, q))
    case Identifier(name) =>
      var t :- ParseType(name);
      var q :- NextAt(tokens, p);
      TypeListAt(tokens, q, parsed + [t], unexpected)
    case _ => Err(unexpected)
  }

  /** `Class :: field`, the operand of `ldfield` and `stfield`. */
  function FieldReferenceAt(tokens: seq<Token>, p: nat): (r: Result<Parsed<(string, string)>, ParserError>)
    requires p < |tokens|
    ensures r.Ok? ==> p < r.value.next < |tokens|
  {
    var className :- NextIdentifierAt(tokens, p);
    if !tokens[className.next].Colon? then Err(ExpectedColon)
    else
      var q :- NextAt(tokens, className.next);
      if !tokens[q].Colon? then Err(ExpectedColon)
      else
        var q' :- NextAt(tokens, q);
        var fieldName :- NextIdentifierAt(tokens, q');
        Ok(Parsed((className.value, fieldName.value), fieldName.next))
  }

  /** The instruction mnemonics, each standing for the operands it reads. */
  datatype Mnemonic =
    | LdNull | LdInt | LdFloat | LdLoc | StLoc | NewArr | LdElem | StElem | LdLen | AddMnemonic
    | SubMnemonic | LdArg | CallMnemonic | Ret | NewObj | LdField | StField | Br
    | BranchOn(condition: Condition)

  /** Every mnemonic the parser knows, in lower case. */
  const MnemonicTable: map<string, Mnemonic> := map[
    "ldnull" := LdNull, "ldint" := LdInt, "ldfloat" := LdFloat, "ldloc" := LdLoc, "stloc" := StLoc,
    "newarr" := NewArr, "ldelem" := LdElem, "stelem" := StElem, "ldlen" := LdLen,
    "add" := AddMnemonic, "sub" := SubMnemonic, "ldarg" := LdArg, "call" := CallMnemonic,
    "ret" := Ret, "newobj" := NewObj, "ldfield" := LdField, "stfield" := StField, "br" := Br,
    "beq" := BranchOn(Equal), "bne" := BranchOn(NotEqual), "bgt" := BranchOn(GreaterThan),
    "bge" := BranchOn(GreaterThanOrEqual), "blt" := BranchOn(LessThan), "ble" := BranchOn(LessThanOrEqual)]

  /** The operands of mnemonic `m`, read from `q` on. */
  function OperandsAt(tokens: seq<Token>, q: nat, m: Mnemonic): (r: Result<Parsed<Op>, ParserError>)
    requires q < |tokens|
    ensures r.Ok? ==> q <= r.value.next < |tokens|
  {
    match m
    case LdNull => var t :- NextTypeIdAt(tokens, q); Ok(Parsed(LoadNull(t.value), t.next))
    case LdInt => var v :- NextI32At(tokens, q); Ok(Parsed(LoadInt32(v.value), v.next))
    case LdFloat => var v :- NextF32At(tokens, q); Ok(Parsed(LoadFloat32(v.value), v.next))
    case LdLoc => var v :- NextI32At(tokens, q); Ok(Parsed(LoadLocal(AsU32(v.value)), v.next))
    case StLoc => var v :- NextI32At(tokens, q); Ok(Parsed(StoreLocal(AsU32(v.value)), v.next))
    case NewArr => var t :- NextTypeIdAt(tokens, q); Ok(Parsed(NewArray(t.value), t.next))
    case LdElem => var t :- NextTypeIdAt(tokens, q); Ok(Parsed(LoadElement(t.value), t.next))
    case StElem => var t :- NextTypeIdAt(tokens, q); Ok(Parsed(StoreElement(t.value), t.next))
    case LdLen => Ok(Parsed(LoadArrayLength, q))
    case AddMnemonic => Ok(Parsed(Add, q))
    case SubMnemonic => Ok(Parsed(Sub, q))
    case LdArg => var v :- NextI32At(tokens, q); Ok(Parsed(LoadArgument(AsU32(v.value)), v.next))
    case CallMnemonic =>
      var name :- NextIdentifierAt(tokens, q);
      if !tokens[name.next].LeftParentheses? then Err(ExpectedLeftParentheses)
      else
        var q' :- NextAt(tokens, name.next);
        var arguments :- TypeListAt(tokens, q', [], ExpectedIdentifier);
        Ok(Parsed(Call(Signature(name.value, arguments.value)), arguments.next))
    case Ret => Ok(Parsed(Return, q))
    case NewObj => var className :- NextIdentifierAt(tokens, q); Ok(Parsed(NewObject(className.value), className.next))
    case LdField => var field :- FieldReferenceAt(tokens, q); Ok(Parsed(LoadField(field.value.0, field.value.1), field.next))
    case StField => var field :- FieldReferenceAt(tokens, q); Ok(Parsed(StoreField(field.value.0, field.value.1), field.next))
    case Br => var v :- NextI32At(tokens, q); Ok(Parsed(Branch(AsU32(v.value)), v.next))
    case BranchOn(condition) => var v :- NextI32At(tokens, q); Ok(Parsed(BranchIf(condition, AsU32(v.value)), v.next))
  }

  /** One instruction whose mnemonic `identifier` is under the cursor at `p`, in any letter case. */
  function ParseInstructionAt(tokens: seq<Token>, p: nat, identifier: string): (r: Result<Parsed<Op>, ParserError>)
    requires p < |tokens|
    ensures r.Ok? ==> p < r.value.next < |tokens|
  {
    var q :- NextAt(tokens, p);
    var m := ToLower(identifier);
    if m in MnemonicTable then OperandsAt(tokens, q, MnemonicTable[m])
    else Err(NotDefinedInstruction(identifier))
  }

  /** `Vec::resize(n, None)`: truncate, or extend with untyped slots. */
  function Resize(locals: seq<Option<TypeId>>, n: nat): (r: seq<Option<TypeId>>)
    ensures |r| == n
    ensures forall i :: 0 <= i < n ==> r[i] == if i < |locals| then locals[i] else None
  {
    if n <= |locals| then locals[..n] else locals + seq(n - |locals|, _ => None)
  }

  /** One statement of a function body: `.locals n`, `.local i T` or an instruction. */
  function StatementAt(tokens: seq<Token>, p: nat, instructions: seq<Op>, locals: seq<Option<TypeId>>)
    : (r: Result<Parsed<(seq<Op>, seq<Option<TypeId>>)>, ParserError>)
    requires p < |tokens|
    ensures r.Ok? ==> p < r.value.next < |tokens|
  {
    match tokens[p]
    case DefineNumberOfLocals =>
      var q :- NextAt(tokens, p);
      var n :- NextI32At(tokens, q);
      if n.value < 0 then Err(Panic)
      else Ok(Parsed((instructions, Resize(locals, n.value)), n.next))
    case DefineLocal =>
      var q :- NextAt(tokens, p);
      var index :- NextI32At(tokens, q);
      var t :- NextTypeIdAt(tokens, index.next);
      if !(0 <= index.value < |locals|) then Err(Panic)
      else Ok(Parsed((instructions, locals[index.value := Some(t.value)]), t.next))
    case Identifier(name) =>
      var instruction :- ParseInstructionAt(tokens, p, name);
      Ok(Parsed((instructions + [instruction.value], locals), instruction.next))
    case _ => Err(ExpectedIdentifier)
  }

  /** The statements of a function body up to and including its closing `}`. */
  function BodyAt(tokens: seq<Token>, p: nat, instructions: seq<Op>, locals: seq<Option<TypeId>>)
    : (r: Result<Parsed<(seq<Op>, seq<Option<TypeId>>)>, ParserError>)
    requires p < |tokens|
    ensures r.Ok? ==> p < r.value.next < |tokens|
    decreases |tokens| - p
  {
    if tokens[p].RightCurlyParentheses? then
      var q :- NextAt(tokens, p);
      Ok(Parsed((instructions, locals), q))
    else
      var statement :- StatementAt(tokens, p, instructions, locals);
      BodyAt(tokens, statement.next, statement.value.0, statement.value.1)
  }

  /** The declared local types of the first `k` slots, or the first slot left untyped. */
  function CheckLocalsPrefix(locals: seq<Option<TypeId>>, k: nat): Result<seq<TypeId>, ParserError>
    requires k <= |locals|
  {
    if k == 0 then Ok([])
    else
      var checked :- CheckLocalsPrefix(locals, k - 1);
      if locals[k - 1].None? then Err(UntypedLocal(k - 1)) else Ok(checked + [locals[k - 1].value])
  }

  function CheckLocals(locals: seq<Option<TypeId>>): Result<seq<TypeId>, ParserError> {
    CheckLocalsPrefix(locals, |locals|)
  }

  /**
   * Checking succeeds iff every slot is typed, and then yields the types in slot order;
   * otherwise it names the first untyped slot.
   */
  lemma {:induction false} CheckLocalsPrefixMeaning(locals: seq<Option<TypeId>>, k: nat)
    requires k <= |locals|
    ensures CheckLocalsPrefix(locals, k).Ok? <==> forall i :: 0 <= i < k ==> locals[i].Some?
    ensures var r := CheckLocalsPrefix(locals, k);
      r.Ok? ==> |r.value| == k && forall i :: 0 <= i < k ==> r.value[i] == locals[i].value
    ensures var r := CheckLocalsPrefix(locals, k);
      r.Err? ==>
        && r.error.UntypedLocal? && r.error.local < k && locals[r.error.local].None?
        && forall i :: 0 <= i < r.error.local ==> locals[i].Some?
  {
    if k > 0 {
      CheckLocalsPrefixMeaning(locals, k - 1);
    }
  }

  /** `func name ( types ) type {` with the cursor on `func`: the name, parameters and return type. */
  function HeaderAt(tokens: seq<Token>, p: nat): (r: Result<Parsed<(string, seq<TypeId>, TypeId)>, ParserError>)
    requires p < |tokens|
    ensures r.Ok? ==> p < r.value.next < |tokens|
  {
    var q :- NextAt(tokens, p);
    var name :- NextIdentifierAt(tokens, q);
    if !tokens[name.next].LeftParentheses? then Err(ExpectedLeftParentheses)
    else
      var q' :- NextAt(tokens, name.next);
      var parameters :- TypeListAt(tokens, q', [], ExpectedRightParentheses);
      var returnType :- NextTypeIdAt(tokens, parameters.next);
      if !tokens[returnType.next].LeftCurlyParentheses? then Err(ExpectedLeftCurlyParentheses)
      else
        var q'' :- NextAt(tokens, returnType.next);
        Ok(Parsed((name.value, parameters.value, returnType.value), q''))
  }

  /** `func name ( types ) type { body }` with the cursor on `func`. */
  function ParseFunctionAt(tokens: seq<Token>, p: nat): (r: Result<Parsed<Function>, ParserError>)
    requires p < |tokens|
    ensures r.Ok? ==> p < r.value.next < |tokens|
  {
    var header :- HeaderAt(tokens, p);
    var body :- BodyAt(tokens, header.next, [], []);
    var locals :- CheckLocals(body.value.1);
    var (name, parameters, returnType) := header.value;
    Ok(Parsed(NewFunction(NewManagedDeclaration(name, parameters, returnType), locals, body.value.0), body.next))
  }

  /** A top-level item: a function, or a `class` keyword, which is accepted and not consumed. */
  function TopLevelAt(tokens: seq<Token>, p: nat): (r: Result<Parsed<seq<Function>>, ParserError>)
    requires p < |tokens|
    ensures r.Ok? ==> p <= r.value.next < |tokens|
  {
    match tokens[p]
    case FunctionKeyword =>
      var f :- ParseFunctionAt(tokens, p);
      Ok(Parsed([f.value], f.next))
    case ClassKeyword => Ok(Parsed([], p))
    case _ => Err(ExpectedFunctionOrClass)
  }

  /**
   * The top-level loop from cursor `p`, with `functions` parsed so far: advance, parse an item,
   * and stop once the cursor is on `End`.
   */
  function ParseFrom(tokens: seq<Token>, p: int, functions: seq<Function>): Result<seq<Function>, ParserError>
    requires -1 <= p < |tokens|
    decreases |tokens| - p
  {
    var q :- NextAt(tokens, p);
    var top :- TopLevelAt(tokens, q);
    if tokens[top.next] == End then Ok(functions + top.value)
    else ParseFrom(tokens, top.next, functions + top.value)
  }

  /**
   * The top-level loop as evidently intended: the cursor moves on before an item only when the
   * previous item has not already left it on the next one. `ParseFrom` always moves on, so the
   * token right after a function is skipped.
   */
  function ParseItemsFrom(tokens: seq<Token>, p: int, functions: seq<Function>, onItem: bool): Result<seq<Function>, ParserError>
    requires -1 <= p < |tokens|
    requires onItem ==> 0 <= p
    decreases |tokens| - p, if onItem then 1 else 0
  {
    var q :- NextAt(tokens, if onItem then p - 1 else p);
    var top :- TopLevelAt(tokens, q);
    if tokens[top.next] == End then Ok(functions + top.value)
    else ParseItemsFrom(tokens, top.next, functions + top.value, top.next > q)
  }

  // ---------------------------------------------------------------------------------------
  // Parser: the cursor-based code
  // ---------------------------------------------------------------------------------------

  /** A routine's result and final cursor agree with its meaning `s`. */
  predicate Agrees<T(==)>(r: Result<T, ParserError>, index: int, s: Result<Parsed<T>, ParserError>) {
    match s
    case Ok(p) => r == Ok(p.value) && index == p.next
    case Err(e) => r == Err(e)
  }

  class Parser {
    var tokens: seq<Token>
    var index: int
    var functions: seq<Function>

    constructor (tokens: seq<Token>)
      ensures this.tokens == tokens && index == -1 && functions == []
    {
      this.tokens := tokens;
      index := -1;
      functions := [];
    }

    method Next() returns (r: Result<(), ParserError>)
      requires -1 <= index
      modifies this`index
      ensures index == old(index) + 1
      ensures r.Ok? <==> NextAt(tokens, old(index)).Ok?
      ensures r.Err? ==> r.error == ReachedEndOfTokens
    {
      index := index + 1;
      if index >= |tokens| {
        return Err(ReachedEndOfTokens);
      }
      r := Ok(());
    }

    method NextIdentifier() returns (r: Result<string, ParserError>)
      requires 0 <= index < |tokens|
      modifies this`index
      ensures Agrees(r, index, NextIdentifierAt(tokens, old(index)))
    {
      var current := tokens[index];
      if current.Identifier? {
        var _ :- Next();
        r := Ok(current.name);
      } else {
        r := Err(ExpectedIdentifier);
      }
    }

    method NextI32() returns (r: Result<I32, ParserError>)
      requires 0 <= index < |tokens|
      modifies this`index
      ensures Agrees(r, index, NextI32At(tokens, old(index)))
    {
      var current := tokens[index];
      if current.Int32Literal? {
        var _ :- Next();
        r := Ok(current.value);
      } else {
        r := Err(ExpectedInt32);
      }
    }

    method NextF32() returns (r: Result<Float32Bits, ParserError>)
      requires 0 <= index < |tokens|
      modifies this`index
      ensures Agrees(r, index, NextF32At(tokens, old(index)))
    {
      var current := tokens[index];
      if current.Float32Literal? {
        var _ :- Next();
        r := Ok(current.bits);
      } else {
        r := Err(ExpectedFloat32);
      }
    }

    method NextTypeId() returns (r: Result<TypeId, ParserError>)
      requires 0 <= index < |tokens|
      modifies this`index
      ensures Agrees(r, index, NextTypeIdAt(tokens, old(index)))
    {
      var name :- NextIdentifier();
      r := ParseType(name);
    }

    /** `)`-closed type list; `unexpected` is the error for any other token. */
    method TypeList(unexpected: ParserError) returns (r: Result<seq<TypeId>, ParserError>)
      requires 0 <= index < |tokens|
      modifies this`index
      ensures Agrees(r, index, TypeListAt(tokens, old(index), [], unexpected))
    {
      var types: seq<TypeId> := [];
      while !tokens[index].RightParentheses?
        invariant 0 <= index < |tokens|
        invariant TypeListAt(tokens, old(index), [], unexpected) == TypeListAt(tokens, index, types, unexpected)
        decreases |tokens| - index
      {
        var current := tokens[index];
        if current.Identifier? {
          var t :- ParseType(current.name);
          types := types + [t];
          var _ :- Next();
        } else {
          return Err(unexpected);
        }
      }
      var _ :- Next();
      r := Ok(types);
    }

    method FieldReference() returns (r: Result<(string, string), ParserError>)
      requires 0 <= index < |tokens|
      modifies this`index
      ensures Agrees(r, index, FieldReferenceAt(tokens, old(index)))
    {
      var className :- NextIdentifier();
      if !tokens[index].Colon? {
        return Err(ExpectedColon);
      }
      var _ :- Next();
      if !tokens[index].Colon? {
        return Err(ExpectedColon);
      }
      var _ :- Next();
      var fieldName :- NextIdentifier();
      r := Ok((className, fieldName));
    }

    method ParseInstruction(identifier: string) returns (r: Result<Op, ParserError>)
      requires 0 <= index < |tokens|
      modifies this`index
      ensures Agrees(r, index, ParseInstructionAt(tokens, old(index), identifier))
    {
      var _ :- Next();
      var m := ToLower(identifier);
      if m !in MnemonicTable {
        return Err(NotDefinedInstruction(identifier));
      }
      r := ParseOperands(MnemonicTable[m]);
    }

    /** The operands of mnemonic `m`. */
    method ParseOperands(m: Mnemonic) returns (r: Result<Op, ParserError>)
      requires 0 <= index < |tokens|
      modifies this`index
      ensures Agrees(r, index, OperandsAt(tokens, old(index), m))
    {
      match m
      case LdNull => var t :- NextTypeId(); r := Ok(LoadNull(t));
      case LdInt => var v :- NextI32(); r := Ok(LoadInt32(v));
      case LdFloat => var v :- NextF32(); r := Ok(LoadFloat32(v));
      case LdLoc => var v :- NextI32(); r := Ok(LoadLocal(AsU32(v)));
      case StLoc => var v :- NextI32(); r := Ok(StoreLocal(AsU32(v)));
      case NewArr => var t :- NextTypeId(); r := Ok(NewArray(t));
      case LdElem => var t :- NextTypeId(); r := Ok(LoadElement(t));
      case StElem => var t :- NextTypeId(); r := Ok(StoreElement(t));
      case LdLen => r := Ok(LoadArrayLength);
      case AddMnemonic => r := Ok(Add);
      case SubMnemonic => r := Ok(Sub);
      case LdArg => var v :- NextI32(); r := Ok(LoadArgument(AsU32(v)));
      case CallMnemonic =>
        var name :- NextIdentifier();
        if !tokens[index].LeftParentheses? {
          return Err(ExpectedLeftParentheses);
        }
        var _ :- Next();
        var arguments :- TypeList(ExpectedIdentifier);
        r := Ok(Call(Signature(name, arguments)));
      case Ret => r := Ok(Return);
      case NewObj => var className :- NextIdentifier(); r := Ok(NewObject(className));
      case LdField => var field :- FieldReference(); r := Ok(LoadField(field.0, field.1));
      case StField => var field :- FieldReference(); r := Ok(StoreField(field.0, field.1));
      case Br => var v :- NextI32(); r := Ok(Branch(AsU32(v)));
      case BranchOn(condition) => var v :- NextI32(); r := Ok(BranchIf(condition, AsU32(v)));
    }

    method ParseStatement(instructions: seq<Op>, locals: seq<Option<TypeId>>)
      returns (r: Result<(seq<Op>, seq<Option<TypeId>>), ParserError>)
      requires 0 <= index < |tokens|
      modifies this`index
      ensures Agrees(r, index, StatementAt(tokens, old(index), instructions, locals))
    {
      var current := tokens[index];
      if current.DefineNumberOfLocals? {
        var _ :- Next();
        var count :- NextI32();
        if count < 0 {
          return Err(Panic);
        }
        r := Ok((instructions, Resize(locals, count)));
      } else if current.DefineLocal? {
        var _ :- Next();
        var slot :- NextI32();
        var localType :- NextTypeId();
        if !(0 <= slot < |locals|) {
          return Err(Panic);
        }
        r := Ok((instructions, locals[slot := Some(localType)]));
      } else if current.Identifier? {
        var instruction :- ParseInstruction(current.name);
        r := Ok((instructions + [instruction], locals));
      } else {
        r := Err(ExpectedIdentifier);
      }
    }

    /** The statements of a function body, up to and including the closing `}`. */
    method ParseBody() returns (r: Result<(seq<Op>, seq<Option<TypeId>>), ParserError>)
      requires 0 <= index < |tokens|
      modifies this`index
      ensures Agrees(r, index, BodyAt(tokens, old(index), [], []))
    {
      var instructions: seq<Op> := [];
      var locals: seq<Option<TypeId>> := [];
      while !tokens[index].RightCurlyParentheses?
        invariant 0 <= index < |tokens|
        invariant BodyAt(tokens, old(index), [], []) == BodyAt(tokens, index, instructions, locals)
        decreases |tokens| - index
      {
        var statement :- ParseStatement(instructions, locals);
        instructions, locals := statement.0, statement.1;
      }
      var _ :- Next();
      r := Ok((instructions, locals));
    }

    /** Every local slot must have been given a type; the types in slot order. */
    static method CheckLocalTypes(locals: seq<Option<TypeId>>) returns (r: Result<seq<TypeId>, ParserError>)
      ensures r == CheckLocals(locals)
    {
      var checked: seq<TypeId> := [];
      var k := 0;
      while k < |locals|
        invariant 0 <= k <= |locals|
        invariant CheckLocalsPrefix(locals, k).Ok? && CheckLocalsPrefix(locals, k).value == checked
      {
        if locals[k].None? {
          CheckLocalsPrefixMeaning(locals, k);
          CheckLocalsPrefixMeaning(locals, |locals|);
          return Err(UntypedLocal(k));
        }
        checked := checked + [locals[k].value];
        k := k + 1;
      }
      r := Ok(checked);
    }

    method ParseHeader() returns (r: Result<(string, seq<TypeId>, TypeId), ParserError>)
      requires 0 <= index < |tokens|
      modifies this`index
      ensures Agrees(r, index, HeaderAt(tokens, old(index)))
    {
      var _ :- Next();
      var name :- NextIdentifier();
      if !tokens[index].LeftParentheses? {
        return Err(ExpectedLeftParentheses);
      }
      var _ :- Next();
      var parameters :- TypeList(ExpectedRightParentheses);
      var returnType :- NextTypeId();
      if !tokens[index].LeftCurlyParentheses? {
        return Err(ExpectedLeftCurlyParentheses);
      }
      var _ :- Next();
      r := Ok((name, parameters, returnType));
    }

    method ParseFunction() returns (r: Result<Function, ParserError>)
      requires 0 <= index < |tokens|
      modifies this`index
      ensures Agrees(r, index, ParseFunctionAt(tokens, old(index)))
    {
      var header :- ParseHeader();
      var body :- ParseBody();
      var checked :- CheckLocalTypes(body.1);
      var (name, parameters, returnType) := header;
      r := Ok(NewFunction(NewManagedDeclaration(name, parameters, returnType), checked, body.0));
    }

    method ParseTopLevel() returns (r: Result<(), ParserError>)
      requires 0 <= index < |tokens|
      modifies this`index, this`functions
      ensures var s := TopLevelAt(tokens, old(index));
        if s.Ok? then r.Ok? && index == s.value.next && functions == old(functions) + s.value.value
        else r == Err(s.error)
    {
      var current := tokens[index];
      if current.FunctionKeyword? {
        var parsed :- ParseFunction();
        functions := functions + [parsed];
        r := Ok(());
      } else if current.ClassKeyword? {
        r := Ok(());
      } else {
        r := Err(ExpectedFunctionOrClass);
      }
    }

    /** Parses every top-level item and hands over the parsed functions, leaving none behind. */
    method Parse() returns (r: Result<seq<Function>, ParserError>)
      requires -1 <= index < |tokens|
      modifies this`index, this`functions
      ensures r == ParseFrom(tokens, old(index), old(functions))
      ensures r.Ok? ==> functions == []
    {
      while true
        invariant -1 <= index < |tokens|
        invariant ParseFrom(tokens, old(index), old(functions)) == ParseFrom(tokens, index, functions)
        decreases |tokens| - index
      {
        var _ :- Next();
        var _ :- ParseTopLevel();
        if tokens[index] == End {
          break;
        }
      }
      r := Ok(functions);
      functions := [];
    }
  }
}

/** What the tokenizer and the parser are proved to do. */
module ParserProperties {
  import opened Wrappers
  import opened Scalars
  import opened TypeIds
  import opened Text
  import opened Program
  import opened Parser

  /** The shape every token of a successful tokenization has. */
  predicate WellFormedToken(t: Token) {
    match t
    case Identifier(n) =>
      && |n| > 0 && IsLetter(n[0]) && (forall k :: 0 <= k < |n| ==> IsWordChar(n[k]))
      && n != "func" && n != "class"
    case Int32Literal(v) => v >= 0
    case _ => true
  }

  /** Characters the tokenizer drops: none of letters, digits, `.` and punctuation. */
  predicate Ignored(c: char) {
    !IsLetter(c) && !IsDigit(c) && c != '.' && PunctuationToken(c).None?
  }

  lemma ScanAtWellFormed(text: string, i: nat, floatBits: string -> Float32Bits)
    requires i < |text|
    ensures var r := ScanAt(text, i, floatBits);
      r.Ok? ==> (forall k :: 0 <= k < |r.value.0| ==> WellFormedToken(r.value.0[k])) && End !in r.value.0
  {
    var c := text[i];
    if IsLetter(c) {
      var j := WordEnd(text, i + 1);
      var w := text[i..j];
      assert forall k :: 0 <= k < |w| ==> w[k] == text[i + k];
    }
  }

  /** A successful tokenization ends with `End`, which occurs nowhere else. */
  lemma {:induction false} LexEndsWithEnd(text: string, i: nat, floatBits: string -> Float32Bits)
    requires i <= |text|
    ensures var r := Lex(text, i, floatBits);
      r.Ok? ==> |r.value| > 0 && r.value[|r.value| - 1] == End && End !in r.value[..|r.value| - 1]
    ensures var r := Lex(text, i, floatBits);
      r.Ok? ==> forall k :: 0 <= k < |r.value| ==> WellFormedToken(r.value[k])
    decreases |text| - i
  {
    if i < |text| {
      var s := ScanAt(text, i, floatBits);
      if s.Ok? {
        ScanAtWellFormed(text, i, floatBits);
        LexEndsWithEnd(text, s.value.1, floatBits);
        var rest := Lex(text, s.value.1, floatBits);
        if rest.Ok? {
          var all := s.value.0 + rest.value;
          assert all[..|all| - 1] == s.value.0 + rest.value[..|rest.value| - 1];
        }
      }
    }
  }

  /** Whitespace and every other character outside the token alphabet are dropped. */
  lemma {:induction false} LexDropsIgnored(text: string, i: nat, floatBits: string -> Float32Bits)
    requires i <= |text|
    requires forall k :: i <= k < |text| ==> Ignored(text[k])
    ensures Lex(text, i, floatBits) == Ok([End])
    decreases |text| - i
  {
    if i < |text| {
      LexDropsIgnored(text, i + 1, floatBits);
      assert ScanAt(text, i, floatBits).Ok? && ScanAt(text, i, floatBits).value.0 == [] && ScanAt(text, i, floatBits).value.1 == i + 1;
      assert [] + [End] == [End];
    }
  }

  predicate ScansTo(text: string, i: nat, floatBits: string -> Float32Bits, tokens: seq<Token>, j: nat)
    requires i < |text|
  {
    var r := ScanAt(text, i, floatBits);
    r.Ok? && r.value.0 == tokens && r.value.1 == j
  }

  predicate LexesTo(text: string, i: nat, floatBits: string -> Float32Bits, tokens: seq<Token>)
    requires i <= |text|
  {
    var r := Lex(text, i, floatBits);
    r.Ok? && r.value == tokens
  }

  /** A mnemonic and its integer operand. */
  lemma LexMnemonicExample(floatBits: string -> Float32Bits)
    ensures LexesTo("ldint 12", 0, floatBits, [Identifier("ldint"), Int32Literal(12), End])
  {
    var t := "ldint 12";
    assert LexesTo(t, 8, floatBits, [End]);
    assert NumberEnd(t, 7, false) == Ok((8, false));
    assert t[6..8] == "12";
    assert DecimalValue("12") == 12;
    assert ScansTo(t, 6, floatBits, [Int32Literal(12)], 8);
    assert LexesTo(t, 6, floatBits, [Int32Literal(12), End]);
    assert ScansTo(t, 5, floatBits, [], 6);
    assert LexesTo(t, 5, floatBits, [Int32Literal(12), End]);
    assert WordEnd(t, 1) == 5;
    assert t[0..5] == "ldint";
    assert ScansTo(t, 0, floatBits, [Identifier("ldint")], 5);
  }

  /** A field reference: two colons between the class and the field. */
  lemma LexFieldExample(floatBits: string -> Float32Bits)
    ensures LexesTo("Point::x", 0, floatBits, [Identifier("Point"), Colon, Colon, Identifier("x"), End])
  {
    var t := "Point::x";
    assert WordEnd(t, 8) == 8;
    assert t[7..8] == "x";
    assert ScansTo(t, 7, floatBits, [Identifier("x")], 8);
    assert LexesTo(t, 7, floatBits, [Identifier("x"), End]);
    assert ScansTo(t, 6, floatBits, [Colon], 7);
    assert ScansTo(t, 5, floatBits, [Colon], 6);
    assert WordEnd(t, 1) == 5;
    assert t[0..5] == "Point";
    assert ScansTo(t, 0, floatBits, [Identifier("Point")], 5);
  }

  /** A second dot in a number fails. */
  lemma LexSecondDotExample(floatBits: string -> Float32Bits)
    ensures Lex("1.2.3", 0, floatBits) == Err(AlreadyHasDot)
  {
    var t := "1.2.3";
    assert NumberEnd(t, 3, true) == Err(AlreadyHasDot);
    assert NumberEnd(t, 1, false) == Err(AlreadyHasDot);
  }

  lemma DecimalValueOfOverflowPrefix()
    ensures DecimalValue("21474") == 21474
  {
    assert DecimalValue("2") == 2 by { assert "2"[..0] == ""; }
    assert DecimalValue("21") == 21 by { assert "21"[..1] == "2"; }
    assert DecimalValue("214") == 214 by { assert "214"[..2] == "21"; }
    assert DecimalValue("2147") == 2147 by { assert "2147"[..3] == "214"; }
    assert DecimalValue("21474") == 21474 by { assert "21474"[..4] == "2147"; }
  }

  lemma DecimalValueOfOverflow()
    ensures DecimalValue("2147483648") == 2147483648
  {
    DecimalValueOfOverflowPrefix();
    assert DecimalValue("214748") == 214748 by { assert "214748"[..5] == "21474"; }
    assert DecimalValue("2147483") == 2147483 by { assert "2147483"[..6] == "214748"; }
    assert DecimalValue("21474836") == 21474836 by { assert "21474836"[..7] == "2147483"; }
    assert DecimalValue("214748364") == 214748364 by { assert "214748364"[..8] == "21474836"; }
    assert DecimalValue("2147483648") == 2147483648 by { assert "2147483648"[..9] == "214748364"; }
  }

  /** A number beyond `i32` fails. */
  lemma LexOverflowExample(floatBits: string -> Float32Bits)
    ensures Lex("2147483648", 0, floatBits) == Err(IntConvertError)
  {
    var t := "2147483648";
    assert NumberEnd(t, 10, false) == Ok((10, false));
    assert NumberEnd(t, 9, false) == Ok((10, false));
    assert NumberEnd(t, 8, false) == Ok((10, false));
    assert NumberEnd(t, 7, false) == Ok((10, false));
    assert NumberEnd(t, 6, false) == Ok((10, false));
    assert NumberEnd(t, 5, false) == Ok((10, false));
    assert NumberEnd(t, 4, false) == Ok((10, false));
    assert NumberEnd(t, 3, false) == Ok((10, false));
    assert NumberEnd(t, 2, false) == Ok((10, false));
    assert NumberEnd(t, 1, false) == Ok((10, false));
    assert t[0..10] == t;
    DecimalValueOfOverflow();
  }

  /** A dotted word other than `.locals` and `.local` fails. */
  lemma LexModifierExample(floatBits: string -> Float32Bits)
    ensures Lex(".global", 0, floatBits) == Err(UndefinedModifier)
  {
    var t := ".global";
    assert WordEnd(t, 1) == 7;
    assert t[0..7] == ".global";
  }

  /** `func` is a keyword; a longer word containing it is an identifier. */
  lemma LexKeywordExample(floatBits: string -> Float32Bits)
    ensures LexesTo("func funcs", 0, floatBits, [FunctionKeyword, Identifier("funcs"), End])
  {
    var t := "func funcs";
    assert WordEnd(t, 6) == 10;
    assert t[5..10] == "funcs";
    assert ScansTo(t, 5, floatBits, [Identifier("funcs")], 10);
    assert LexesTo(t, 5, floatBits, [Identifier("funcs"), End]);
    assert ScansTo(t, 4, floatBits, [], 5);
    assert LexesTo(t, 4, floatBits, [Identifier("funcs"), End]);
    assert WordEnd(t, 1) == 4;
    assert t[0..4] == "func";
    assert ScansTo(t, 0, floatBits, [FunctionKeyword], 4);
  }

  // -------------------------------------------------------------------------------------
  // Parser
  // -------------------------------------------------------------------------------------

  /** Mnemonics are read case-insensitively; only an unknown one's error keeps its spelling. */
  lemma MnemonicCaseInsensitive(tokens: seq<Token>, p: nat, a: string, b: string)
    requires p < |tokens|
    requires ToLower(a) == ToLower(b)
    ensures var ra, rb := ParseInstructionAt(tokens, p, a), ParseInstructionAt(tokens, p, b);
      ra == rb || (ra == Err(NotDefinedInstruction(a)) && rb == Err(NotDefinedInstruction(b)))
  {
  }

  /** A mnemonic outside the instruction set is rejected with its own spelling. */
  lemma UnknownMnemonic(tokens: seq<Token>, p: nat, a: string)
    requires p + 1 < |tokens|
    requires ToLower(a) !in MnemonicTable
    ensures ParseInstructionAt(tokens, p, a) == Err(NotDefinedInstruction(a))
  {
  }


  /** `ret` takes no operand: the cursor just moves past the mnemonic. */
  lemma ReturnInstruction(tokens: seq<Token>, p: nat, id: string)
    requires p + 1 < |tokens|
    requires ToLower(id) == "ret"
    ensures ParseInstructionAt(tokens, p, id) == Ok(Parsed(Return, p + 1))
  {
  }

  /** `ldint v` in any letter case loads the literal `v`. */
  lemma LoadIntInstruction(tokens: seq<Token>, p: nat, id: string, v: I32)
    requires p + 2 < |tokens|
    requires ToLower(id) == "ldint" && tokens[p + 1] == Int32Literal(v)
    ensures ParseInstructionAt(tokens, p, id) == Ok(Parsed(LoadInt32(v), p + 2))
  {
  }

  /** `newobj C` creates an object of class `C`. */
  lemma NewObjectInstruction(tokens: seq<Token>, p: nat, id: string, className: string)
    requires p + 2 < |tokens|
    requires ToLower(id) == "newobj" && tokens[p + 1] == Identifier(className)
    ensures ParseInstructionAt(tokens, p, id) == Ok(Parsed(NewObject(className), p + 2))
  {
  }

  /** `ldfield C :: f` loads field `f` of class `C`; a single colon is rejected. */
  lemma LoadFieldInstruction(tokens: seq<Token>, p: nat, id: string, className: string, field: string)
    requires p + 5 < |tokens|
    requires ToLower(id) == "ldfield" && tokens[p + 1] == Identifier(className) && tokens[p + 2] == Colon
    ensures tokens[p + 3] == Colon && tokens[p + 4] == Identifier(field) ==>
      ParseInstructionAt(tokens, p, id) == Ok(Parsed(LoadField(className, field), p + 5))
    ensures !tokens[p + 3].Colon? ==> ParseInstructionAt(tokens, p, id) == Err(ExpectedColon)
  {
  }

  /**
   * A type list is a run of type names closed by `)`; the parsed types follow the names in
   * order, after those parsed before.
   */
  lemma {:induction false} TypeListMeaning(tokens: seq<Token>, p: nat, parsed: seq<TypeId>, unexpected: ParserError)
    requires p < |tokens|
    ensures var r := TypeListAt(tokens, p, parsed, unexpected);
      r.Ok? ==> (
        var n := r.value.next;
        && tokens[n - 1] == RightParentheses
        && |r.value.value| == |parsed| + (n - 1 - p)
        && r.value.value[..|parsed|] == parsed
        && forall k :: p <= k < n - 1 ==>
             tokens[k].Identifier? && ParseType(tokens[k].name) == Ok(r.value.value[|parsed| + k - p]))
    decreases |tokens| - p
  {
    var r := TypeListAt(tokens, p, parsed, unexpected);
    if tokens[p].Identifier? && r.Ok? {
      var t := ParseType(tokens[p].name).value;
      TypeListMeaning(tokens, p + 1, parsed + [t], unexpected);
      assert r == TypeListAt(tokens, p + 1, parsed + [t], unexpected);
      assert r.value.value[..|parsed| + 1] == parsed + [t];
      assert r.value.value[..|parsed|] == (parsed + [t])[..|parsed|];
    }
  }

  /** A token that is neither a type name nor `)` ends a type list with the given error. */
  lemma TypeListRejects(tokens: seq<Token>, p: nat, parsed: seq<TypeId>, unexpected: ParserError)
    requires p < |tokens|
    ensures !tokens[p].Identifier? && !tokens[p].RightParentheses? ==>
      TypeListAt(tokens, p, parsed, unexpected) == Err(unexpected)
    ensures tokens[p].Identifier? && ParseType(tokens[p].name).Err? ==>
      TypeListAt(tokens, p, parsed, unexpected) == Err(NotDefinedType(tokens[p].name))
  {
  }

  /** A function name must be followed by `(`. */
  lemma MissingLeftParentheses(tokens: seq<Token>, p: nat)
    requires p + 2 < |tokens|
    requires tokens[p + 1].Identifier? && !tokens[p + 2].LeftParentheses?
    ensures ParseFunctionAt(tokens, p) == Err(ExpectedLeftParentheses)
  {
  }

  /** A header whose return type is not followed by `{` is rejected. */
  lemma MissingBraceExample()
    ensures ParseFunctionAt([FunctionKeyword, Identifier("f"), LeftParentheses, RightParentheses,
      Identifier("Int"), Identifier("ret"), End], 0) == Err(ExpectedLeftCurlyParentheses)
  {
  }

  /** A parameter list holding a literal is rejected. */
  lemma LiteralParameterExample()
    ensures ParseFunctionAt([FunctionKeyword, Identifier("f"), LeftParentheses, Int32Literal(1),
      RightParentheses, End], 0) == Err(ExpectedRightParentheses)
  {
  }

  /** A parameter of an unknown type is rejected with the type's name. */
  lemma UnknownParameterTypeExample()
    ensures ParseFunctionAt([FunctionKeyword, Identifier("f"), LeftParentheses, Identifier("Foo"),
      RightParentheses, End], 0) == Err(NotDefinedType("Foo"))
  {
  }

  /** A body ends on its closing brace. */
  lemma {:induction false} BodyEndsAtBrace(tokens: seq<Token>, p: nat, instructions: seq<Op>, locals: seq<Option<TypeId>>)
    requires p < |tokens|
    ensures var r := BodyAt(tokens, p, instructions, locals);
      r.Ok? ==> tokens[r.value.next - 1] == RightCurlyParentheses
    decreases |tokens| - p
  {
    if !tokens[p].RightCurlyParentheses? {
      var statement := StatementAt(tokens, p, instructions, locals);
      if statement.Ok? {
        var s := statement.value;
        BodyEndsAtBrace(tokens, s.next, s.value.0, s.value.1);
        assert BodyAt(tokens, p, instructions, locals) == BodyAt(tokens, s.next, s.value.0, s.value.1);
      }
    }
  }

  /** A header starts `func name (`. */
  lemma HeaderShape(tokens: seq<Token>, p: nat)
    requires p < |tokens|
    ensures var r := HeaderAt(tokens, p);
      r.Ok? ==> tokens[p + 1] == Identifier(r.value.value.0) && tokens[p + 2] == LeftParentheses
  {
  }

  /**
   * A parsed function is a managed declaration without an address, named by the token after
   * `func`, with one empty operand-type list per instruction, whose locals are the declared
   * slot types in order; its text ends with `}`.
   */
  lemma FunctionShape(tokens: seq<Token>, p: nat)
    requires p < |tokens|
    ensures var r := ParseFunctionAt(tokens, p);
      r.Ok? ==> (
        var f := r.value.value;
        && tokens[p + 1] == Identifier(f.declaration.name)
        && tokens[p + 2] == LeftParentheses
        && f.declaration.kind == Managed && f.declaration.address == None
        && f.WellFormed() && (forall i :: 0 <= i < |f.instructions| ==> f.operandTypes[i] == [])
        && tokens[r.value.next - 1] == RightCurlyParentheses)
  {
    var r := ParseFunctionAt(tokens, p);
    if r.Ok? {
      HeaderShape(tokens, p);
      var header := HeaderAt(tokens, p).value;
      BodyEndsAtBrace(tokens, header.next, [], []);
      var body := BodyAt(tokens, header.next, [], []).value;
      var locals := CheckLocals(body.value.1).value;
      assert r.value == Parsed(NewFunction(NewManagedDeclaration(header.value.0, header.value.1, header.value.2), locals, body.value.0), body.next);
    }
  }

  /** The locals of a parsed function are the slot types its body declared, in order. */
  lemma FunctionLocals(tokens: seq<Token>, p: nat)
    requires p < |tokens|
    ensures var r := ParseFunctionAt(tokens, p);
      r.Ok? ==> (
        var header := HeaderAt(tokens, p).value;
        var body := BodyAt(tokens, header.next, [], []).value;
        && |r.value.value.locals| == |body.value.1|
        && forall i :: 0 <= i < |body.value.1| ==> body.value.1[i] == Some(r.value.value.locals[i]))
  {
    var r := ParseFunctionAt(tokens, p);
    if r.Ok? {
      var header := HeaderAt(tokens, p).value;
      var body := BodyAt(tokens, header.next, [], []).value;
      CheckLocalsPrefixMeaning(body.value.1, |body.value.1|);
    }
  }

  /** `.locals 1` then `.local 0 Int` declares one Int32 local; a slot left untyped is reported. */
  lemma LocalsExamples()
    ensures var r := BodyAt([DefineNumberOfLocals, Int32Literal(1), DefineLocal, Int32Literal(0), Identifier("Int"),
        RightCurlyParentheses, End], 0, [], []);
      r.Ok? && r.value.value.0 == [] && r.value.value.1 == [Some(Int32)] && r.value.next == 6
    ensures var r := CheckLocals([Some(Int32)]); r.Ok? && r.value == [Int32]
    ensures CheckLocals([Some(Int32), None]) == Err(UntypedLocal(1))
  {
    var tokens := [DefineNumberOfLocals, Int32Literal(1), DefineLocal, Int32Literal(0), Identifier("Int"),
      RightCurlyParentheses, End];
    assert Resize([], 1) == [None];
    var s := StatementAt(tokens, 0, [], []);
    assert s.Ok? && s.value.value.1 == [None] && s.value.next == 2;
    var s' := StatementAt(tokens, 2, [], [None]);
    assert s'.Ok? && s'.value.value.1 == [Some(Int32)] && s'.value.next == 5;
  }

  /** An identifier under the cursor is an instruction statement, appended to those before it. */
  lemma InstructionStatement(tokens: seq<Token>, p: nat, id: string, instructions: seq<Op>, locals: seq<Option<TypeId>>, op: Op, next: nat)
    requires p < |tokens| && tokens[p] == Identifier(id)
    requires ParseInstructionAt(tokens, p, id) == Ok(Parsed(op, next))
    ensures StatementAt(tokens, p, instructions, locals) == Ok(Parsed((instructions + [op], locals), next))
  {
  }

  /** A statement that is not `}` is parsed and the body goes on after it. */
  lemma BodyStep(tokens: seq<Token>, p: nat, instructions: seq<Op>, locals: seq<Option<TypeId>>)
    requires p < |tokens| && !tokens[p].RightCurlyParentheses?
    requires StatementAt(tokens, p, instructions, locals).Ok?
    ensures var s := StatementAt(tokens, p, instructions, locals).value;
      BodyAt(tokens, p, instructions, locals) == BodyAt(tokens, s.next, s.value.0, s.value.1)
  {
  }

  /** `}` closes the body with what was parsed so far. */
  lemma BodyClose(tokens: seq<Token>, p: nat, instructions: seq<Op>, locals: seq<Option<TypeId>>)
    requires p + 1 < |tokens| && tokens[p] == RightCurlyParentheses
    ensures BodyAt(tokens, p, instructions, locals) == Ok(Parsed((instructions, locals), p + 1))
  {
  }

  /** A body that is a single instruction statement followed by `}`. */
  lemma OneStatementBody(tokens: seq<Token>, p: nat, id: string, op: Op, next: nat)
    requires next + 1 < |tokens| && p < |tokens|
    requires tokens[p] == Identifier(id) && tokens[next] == RightCurlyParentheses
    requires ParseInstructionAt(tokens, p, id) == Ok(Parsed(op, next))
    ensures BodyAt(tokens, p, [], []) == Ok(Parsed(([op], []), next + 1))
  {
    assert [] + [op] == [op];
    InstructionStatement(tokens, p, id, [], [], op, next);
    BodyStep(tokens, p, [], []);
    BodyClose(tokens, next, [op], []);
  }

  /** `func name ( ) T {`: a header without parameters. */
  lemma EmptyHeader(tokens: seq<Token>, p: nat, name: string, typeName: string, returnType: TypeId)
    requires p + 6 < |tokens|
    requires tokens[p] == FunctionKeyword && tokens[p + 1] == Identifier(name)
    requires tokens[p + 2] == LeftParentheses && tokens[p + 3] == RightParentheses
    requires tokens[p + 4] == Identifier(typeName) && ParseType(typeName) == Ok(returnType)
    requires tokens[p + 5] == LeftCurlyParentheses
    ensures HeaderAt(tokens, p) == Ok(Parsed((name, [], returnType), p + 6))
  {
    assert TypeListAt(tokens, p + 3, [], ExpectedRightParentheses) == Ok(Parsed([], p + 4));
  }

  /**
   * The tokens from `p` on spell `func name ( ) T { m }`, where `T` names the `Int` type and `m`
   * is `ret` in some letter case.
   */
  predicate ReturnOnlyAt(tokens: seq<Token>, p: nat, name: string) {
    && p + 8 < |tokens|
    && tokens[p] == FunctionKeyword && tokens[p + 1] == Identifier(name)
    && tokens[p + 2] == LeftParentheses && tokens[p + 3] == RightParentheses
    && tokens[p + 4].Identifier? && ParseType(tokens[p + 4].name) == Ok(Int32)
    && tokens[p + 5] == LeftCurlyParentheses
    && tokens[p + 6].Identifier? && ToLower(tokens[p + 6].name) in MnemonicTable
    && MnemonicTable[ToLower(tokens[p + 6].name)] == Ret
    && tokens[p + 7] == RightCurlyParentheses
  }

  /** `func name ( ) Int { ret }`: a function without locals that just returns. */
  lemma ReturnOnlyFunction(tokens: seq<Token>, p: nat, name: string)
    requires ReturnOnlyAt(tokens, p, name)
    ensures var r := ParseFunctionAt(tokens, p);
      && r.Ok? && r.value.next == p + 8
      && r.value.value.declaration == NewManagedDeclaration(name, [], Int32)
      && r.value.value.instructions == [Return] && r.value.value.locals == []
  {
    EmptyHeader(tokens, p, name, tokens[p + 4].name, Int32);
    var mnemonic := tokens[p + 6].name;
    assert ParseInstructionAt(tokens, p + 6, mnemonic) == Ok(Parsed(Return, p + 7));
    OneStatementBody(tokens, p + 6, mnemonic, Return, p + 7);
    assert CheckLocals([]) == Ok([]);
  }

  /** As a top-level item, such a function is one item ending where the function ends. */
  lemma ReturnOnlyItem(tokens: seq<Token>, p: nat, name: string)
    requires ReturnOnlyAt(tokens, p, name)
    ensures ParseFunctionAt(tokens, p).Ok?
    ensures TopLevelAt(tokens, p) == Ok(Parsed([ParseFunctionAt(tokens, p).value.value], p + 8))
  {
    ReturnOnlyFunction(tokens, p, name);
  }

  /** One function that just returns, then `End`: both loops accept it. */
  lemma OneFunctionAccepted(tokens: seq<Token>, name: string)
    requires ReturnOnlyAt(tokens, 0, name) && |tokens| == 9 && tokens[8] == End
    ensures var r := ParseFrom(tokens, -1, []);
      r.Ok? && |r.value| == 1 && r.value[0].declaration.name == name
    ensures ParseItemsFrom(tokens, -1, [], false) == ParseFrom(tokens, -1, [])
  {
    ReturnOnlyFunction(tokens, 0, name);
    ReturnOnlyItem(tokens, 0, name);
  }

  /** As written, the second of two functions is never reached: the loop skips its `func`. */
  lemma TwoFunctionsRejected(tokens: seq<Token>, a: string, b: string)
    requires ReturnOnlyAt(tokens, 0, a) && ReturnOnlyAt(tokens, 8, b)
    ensures ParseFrom(tokens, -1, []) == Err(ExpectedFunctionOrClass)
  {
    ReturnOnlyFunction(tokens, 0, a);
    ReturnOnlyItem(tokens, 0, a);
    var first := ParseFunctionAt(tokens, 0).value;
    assert ParseFrom(tokens, -1, []) == ParseFrom(tokens, 8, [first.value]);
  }

  /** The intended loop, left on a last function that just returns, adds it and stops. */
  lemma LastFunctionItem(tokens: seq<Token>, p: nat, name: string, functions: seq<Function>)
    requires ReturnOnlyAt(tokens, p, name) && tokens[p + 8] == End
    ensures var r := ParseFunctionAt(tokens, p);
      && r.Ok? && r.value.value.declaration.name == name
      && ParseItemsFrom(tokens, p, functions, true) == Ok(functions + [r.value.value])
  {
    ReturnOnlyFunction(tokens, p, name);
    ReturnOnlyItem(tokens, p, name);
  }

  /** The intended loop, at the start of a function that just returns, parses it and moves on. */
  lemma FirstFunctionItem(tokens: seq<Token>, name: string)
    requires ReturnOnlyAt(tokens, 0, name) && tokens[8] != End
    ensures var r := ParseFunctionAt(tokens, 0);
      && r.Ok? && r.value.value.declaration.name == name
      && ParseItemsFrom(tokens, -1, [], false) == ParseItemsFrom(tokens, 8, [r.value.value], true)
  {
    ReturnOnlyFunction(tokens, 0, name);
    ReturnOnlyItem(tokens, 0, name);
    var f := ParseFunctionAt(tokens, 0).value.value;
    assert [] + [f] == [f];
  }

  /** The intended loop parses both functions, in order. */
  lemma TwoFunctionsAccepted(tokens: seq<Token>, a: string, b: string)
    requires ReturnOnlyAt(tokens, 0, a) && ReturnOnlyAt(tokens, 8, b) && tokens[16] == End
    ensures var r := ParseItemsFrom(tokens, -1, [], false);
      r.Ok? && |r.value| == 2 && r.value[0].declaration.name == a && r.value[1].declaration.name == b
  {
    FirstFunctionItem(tokens, a);
    var first := ParseFunctionAt(tokens, 0).value.value;
    LastFunctionItem(tokens, 8, b, [first]);
  }
}
