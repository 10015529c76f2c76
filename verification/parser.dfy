/** `validateAndParseNums` (app.js:5-19): turns the raw `nums` query
    parameter into the list of numbers, or throws a descriptive error.
    Numeric parsing of a single token (`parseFloat` followed by the
    `isNaN` test) is a parameter `parse`: `None` stands for NaN. */
module NumberListParser {
  import opened Results
  import opened Text

  /** The two errors the parser throws. */
  datatype ParseError = MissingNums | NotANumber(token: string)

  /** The `message` of the thrown error, which the handlers send back in
      the 400 reply body. */
  function Message(e: ParseError): (m: string)
    ensures e.MissingNums? ==> m == "nums are required"
    ensures e.NotANumber? ==> m == e.token + " is not a number."
  {
    match e
    case MissingNums => "nums are required"
    case NotANumber(token) => token + " is not a number."
  }

  /** `tokens.map(...)`: parses the tokens left to right and stops at the
      first one that does not parse. */
  function ParseTokens(tokens: seq<string>, parse: string -> Option<real>): (r: Result<seq<real>, ParseError>)
    ensures r.Success? <==> forall i :: 0 <= i < |tokens| ==> parse(tokens[i]).Some?
    ensures r.Success? ==> |r.value| == |tokens|
    ensures r.Success? ==> forall i :: 0 <= i < |tokens| ==> parse(tokens[i]) == Some(r.value[i])
    ensures r.Failure? ==> exists i :: FirstUnparsable(tokens, parse, i) && r.error == NotANumber(tokens[i])
  {
    if |tokens| == 0 then Success([])
    else
      match parse(tokens[0])
      case None =>
        assert FirstUnparsable(tokens, parse, 0);
        Failure(NotANumber(tokens[0]))
      case Some(x) =>
        var rest := ParseTokens(tokens[1..], parse);
        if rest.Failure? then
          var i :| FirstUnparsable(tokens[1..], parse, i) && rest.error == NotANumber(tokens[1..][i]);
          assert FirstUnparsable(tokens, parse, i + 1);
          rest
        else
          assert forall i :: 1 <= i < |tokens| ==> tokens[i] == tokens[1..][i - 1];
          Success([x] + rest.value)
  }

  /** Token `i` is the leftmost token that does not parse. */
  predicate FirstUnparsable(tokens: seq<string>, parse: string -> Option<real>, i: int) {
    && 0 <= i < |tokens|
    && parse(tokens[i]).None?
    && forall j :: 0 <= j < i ==> parse(tokens[j]).Some?
  }

  /** The raw parameter is falsy: absent (`undefined`) or the empty string. */
  predicate Falsy(nums: Option<string>) {
    nums.None? || nums.value == ""
  }

  /** `validateAndParseNums(nums)`. */
  function ValidateAndParseNums(nums: Option<string>, parse: string -> Option<real>): (r: Result<seq<real>, ParseError>)
    ensures r == Failure(MissingNums) <==> Falsy(nums)
    ensures r.Success? ==> !Falsy(nums) && |r.value| == multiset(nums.value)[','] + 1
    ensures r.Success? ==> forall i :: 0 <= i < |r.value| ==> parse(Split(nums.value, ',')[i]) == Some(r.value[i])
    ensures r.Failure? && !Falsy(nums) ==>
      exists i :: FirstUnparsable(Split(nums.value, ','), parse, i) && r.error == NotANumber(Split(nums.value, ',')[i])
  {
    if Falsy(nums) then Failure(MissingNums)
    else ParseTokens(Split(nums.value, ','), parse)
  }

  /** The pieces the numbers came from rebuild the raw parameter exactly, so
      the parser neither drops nor invents input. */
  lemma ParsedTokensRebuildInput(nums: Option<string>, parse: string -> Option<real>)
    requires ValidateAndParseNums(nums, parse).Success?
    ensures exists tokens: seq<string> ::
      && Join(tokens, ",") == nums.value
      && |tokens| == |ValidateAndParseNums(nums, parse).value|
      && forall i :: 0 <= i < |tokens| ==> ',' !in tokens[i] && parse(tokens[i]) == Some(ValidateAndParseNums(nums, parse).value[i])
  {
    var tokens := Split(nums.value, ',');
    assert [','] == ",";
    assert Join(tokens, ",") == nums.value;
  }

  /** `nums=,` is not treated as missing: it fails on its first (empty)
      token, provided the empty string does not parse. */
  lemma LoneCommaIsNotMissing(parse: string -> Option<real>)
    requires parse("") == None
    ensures ValidateAndParseNums(Some(","), parse) == Failure(NotANumber(""))
  {
    var tokens := ["", ""];
    assert Join(tokens, [',']) == ",";
    SplitJoin(tokens, ',');
    assert FirstUnparsable(tokens, parse, 0);
  }

  /** `nums=1,foo,3` fails with "foo is not a number." */
  lemma RejectsFoo(parse: string -> Option<real>)
    requires parse("1") == Some(1.0) && parse("foo") == None
    ensures ValidateAndParseNums(Some("1,foo,3"), parse) == Failure(NotANumber("foo"))
  {
    SplitFooExample();
    ParseFooTokens(parse);
  }

  /** Parsing stops at the second token, the first that is not a number. */
  lemma ParseFooTokens(parse: string -> Option<real>)
    requires parse("1") == Some(1.0) && parse("foo") == None
    ensures ParseTokens(["1", "foo", "3"], parse) == Failure(NotANumber("foo"))
  {
    var tokens := ["1", "foo", "3"];
    var r := ParseTokens(tokens, parse);
    assert parse(tokens[1]).None?;
    var i :| FirstUnparsable(tokens, parse, i) && r.error == NotANumber(tokens[i]);
    assert i == 1;
  }

  lemma SplitFooExample()
    ensures Split("1,foo,3", ',') == ["1", "foo", "3"]
  {
    JoinFooExample();
    SplitJoin(["1", "foo", "3"], ',');
  }

  lemma JoinFooExample()
    ensures Join(["1", "foo", "3"], [',']) == "1,foo,3"
  {
    assert Join(["foo", "3"], [',']) == "foo,3";
  }
}
