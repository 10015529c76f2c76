/** Whole-request behaviour of the handlers on particular inputs: the
    error replies, the `Accept` rules of the two kinds of route, and the
    worked examples of app.test.js. */
module Scenarios {
  import opened Results
  import opened Seqs
  import opened Ordering
  import opened Text
  import opened NumberListParser
  import opened Statistics
  import opened Frequency
  import opened ModeProperties
  import opened ResponseFormatter
  import opened Routes

  /** Without `nums`, or with it empty, every route answers 400 with
      "nums are required". */
  lemma MissingNumsRejected(op: Op, nums: Option<string>, header: Option<string>,
                            parse: string -> Option<real>, render: real -> string)
    requires nums == None || nums == Some("")
    ensures StatRoute(op, nums, header, parse, render) == BadRequest("nums are required")
    ensures AllRoute(nums, header, parse, render) == BadRequest("nums are required")
  {
    assert Falsy(nums);
  }

  /** A token that does not parse is named in the 400 reply of every
      route. */
  lemma NotANumberReply(op: Op, nums: Option<string>, header: Option<string>,
                        parse: string -> Option<real>, render: real -> string, token: string)
    requires ValidateAndParseNums(nums, parse) == Failure(NotANumber(token))
    ensures StatRoute(op, nums, header, parse, render) == BadRequest(token + " is not a number.")
    ensures AllRoute(nums, header, parse, render) == BadRequest(token + " is not a number.")
  {
  }

  /** `"application/json"` does not mention `"text/html"`. */
  lemma JsonTypeIsNotHtml()
    ensures Occurs("application/json", "application/json")
    ensures !Occurs("application/json", "text/html")
  {
    var json, html := "application/json", "text/html";
    assert OccursAt(json, json, 0);
    forall i ensures !OccursAt(json, html, i) {
      if 0 <= i && i + |html| <= |json| {
        assert json[i..i + |html|][0] == json[i];
        if i == 7 {
          assert json[i..i + |html|][1] == 'i';
        }
      }
    }
  }

  /** Without an `Accept` header every route answers with JSON. */
  lemma JsonByDefault(op: Op, nums: Option<string>, parse: string -> Option<real>, render: real -> string)
    requires ValidateAndParseNums(nums, parse).Success?
    ensures var xs := ValidateAndParseNums(nums, parse).value;
      && |xs| > 0
      && StatRoute(op, nums, None, parse, render) == Ok(Json(OpName(op), Compute(op, xs)))
      && AllRoute(nums, None, parse, render) == AllJson(AllOutcome(xs))
  {
    JsonTypeIsNotHtml();
  }

  /** The header that asks for both types. */
  const BothTypes := "application/json, text/html"

  lemma BothTypesMentionsBoth()
    ensures Occurs(BothTypes, "application/json")
    ensures Occurs(BothTypes, "text/html")
  {
    OccursInside("", "application/json", ", text/html");
    assert "" + "application/json" + ", text/html" == BothTypes;
    OccursAtEnd("application/json, ", "text/html");
    assert "application/json, " + "text/html" == BothTypes;
  }

  /** Asked for both types, the single routes answer with JSON while
      `/all` answers with HTML. */
  lemma RoutesDisagreeOnBothTypes(op: Op, nums: Option<string>, parse: string -> Option<real>, render: real -> string)
    requires ValidateAndParseNums(nums, parse).Success?
    ensures var xs := ValidateAndParseNums(nums, parse).value;
      && |xs| > 0
      && StatRoute(op, nums, Some(BothTypes), parse, render) == Ok(Json(OpName(op), Compute(op, xs)))
      && AllRoute(nums, Some(BothTypes), parse, render) == Ok(Html(AllPage(AllOutcome(xs), render)))
  {
    BothTypesMentionsBoth();
  }

  /** The mean of 1, 2, 3, 4, 5 is 3. */
  lemma MeanOfOneToFive()
    ensures Mean([1.0, 2.0, 3.0, 4.0, 5.0]) == 3.0
  {
    var xs := [1.0, 2.0, 3.0, 4.0, 5.0];
    assert Sum(xs[..1]) == 1.0;
    assert Sum(xs[..2]) == 3.0 by { assert xs[..2][..1] == xs[..1]; }
    assert Sum(xs[..3]) == 6.0 by { assert xs[..3][..2] == xs[..2]; }
    assert Sum(xs[..4]) == 10.0 by { assert xs[..4][..3] == xs[..3]; }
    assert Sum(xs) == 15.0 by { assert xs[..4] == xs[..|xs| - 1]; }
    ScaleIsProduct(5, Mean(xs));
  }

  /** The median of 1, 2, 3, 4, 5 is 3. */
  lemma MedianOfOneToFive()
    ensures Median([1.0, 2.0, 3.0, 4.0, 5.0]) == 3.0
  {
    var xs := [1.0, 2.0, 3.0, 4.0, 5.0];
    MedianOfSortedArrangement(xs, xs);
  }

  /** The median of 1, 2, 3, 4 is 2.5. */
  lemma MedianOfOneToFour()
    ensures Median([1.0, 2.0, 3.0, 4.0]) == 2.5
  {
    var xs := [1.0, 2.0, 3.0, 4.0];
    MedianOfSortedArrangement(xs, xs);
  }

  /** `/all` on 1, 2, 3, 4, 5: mean 3, median 3, and all five values as
      tied modes in ascending order. */
  lemma AllOfOneToFive(xs: seq<real>)
    requires xs == [1.0, 2.0, 3.0, 4.0, 5.0]
    ensures AllOutcome(xs) == AllResponse(3.0, 3.0, List([1.0, 2.0, 3.0, 4.0, 5.0]))
  {
    AllOfArrayIndices(xs);
    MeanOfOneToFive();
    MedianOfOneToFive();
    ModeOfOneToFive(xs);
  }

  lemma AllOfArrayIndices(xs: seq<real>)
    requires xs == [1.0, 2.0, 3.0, 4.0, 5.0]
    ensures AllOutcome(xs) == AllResponse(Mean(xs), Median(xs), Mode(xs))
  {
    assert AllArrayIndices(xs);
    AllAgreesWithSingleRoutes(xs);
  }

  /** Every value of 1, 2, 3, 4, 5 occurs once, so all are modes. */
  lemma ModeOfOneToFive(xs: seq<real>)
    requires xs == [1.0, 2.0, 3.0, 4.0, 5.0]
    ensures Mode(xs) == List(xs)
  {
    assert multiset(xs) == multiset{1.0, 2.0, 3.0, 4.0, 5.0};
    ModeIsListOf(xs, xs, 1);
  }

  /** `0.5,-1,0.5,-1`: `/mode` lists the tied modes as 0.5, -1 (first
      occurrence), but `/all`, which reads the array after `median` sorted
      it, lists them as -1, 0.5. */
  lemma AllModeFollowsSortedOrder(xs: seq<real>)
    requires xs == [0.5, -1.0, 0.5, -1.0]
    ensures Mode(xs) == List([0.5, -1.0])
    ensures AllOutcome(xs).mode == List([-1.0, 0.5])
  {
    ModeOtherKeysFirstOccurrence();
    var sorted := [-1.0, -1.0, 0.5, 0.5];
    SortOfTiedPair(xs, sorted);
    ModeOfSortedTiedPair(sorted);
    UnwrapModeIsNoOp(sorted);
  }

  lemma SortOfTiedPair(xs: seq<real>, sorted: seq<real>)
    requires xs == [0.5, -1.0, 0.5, -1.0] && sorted == [-1.0, -1.0, 0.5, 0.5]
    ensures SortAndMedian(xs).sorted == sorted
  {
    assert multiset(xs) == multiset(sorted);
    MedianOfSortedArrangement(xs, sorted);
  }

  lemma ModeOfSortedTiedPair(sorted: seq<real>)
    requires sorted == [-1.0, -1.0, 0.5, 0.5]
    ensures Mode(sorted) == List([-1.0, 0.5])
  {
    assert multiset(sorted) == multiset{-1.0, -1.0, 0.5, 0.5};
    assert sorted[..3][2] == 0.5;
    assert FirstIndex(sorted, -1.0) == 0 && FirstIndex(sorted, 0.5) == 2;
    ModeIsListOf(sorted, [-1.0, 0.5], 2);
  }

  /** The parser reads `1,2,3,4,5` as the numbers 1 to 5. */
  lemma ParseOneToFive(parse: string -> Option<real>)
    requires parse("1") == Some(1.0) && parse("2") == Some(2.0) && parse("3") == Some(3.0)
    requires parse("4") == Some(4.0) && parse("5") == Some(5.0)
    ensures ValidateAndParseNums(Some("1,2,3,4,5"), parse) == Success([1.0, 2.0, 3.0, 4.0, 5.0])
  {
    SplitOneToFive();
    ParseOneToFiveTokens(parse);
  }

  lemma ParseOneToFiveTokens(parse: string -> Option<real>)
    requires parse("1") == Some(1.0) && parse("2") == Some(2.0) && parse("3") == Some(3.0)
    requires parse("4") == Some(4.0) && parse("5") == Some(5.0)
    ensures ParseTokens(["1", "2", "3", "4", "5"], parse) == Success([1.0, 2.0, 3.0, 4.0, 5.0])
  {
    var tokens := ["1", "2", "3", "4", "5"];
    var r := ParseTokens(tokens, parse);
    assert forall i :: 0 <= i < |tokens| ==> parse(tokens[i]).Some?;
    assert parse(tokens[0]) == Some(r.value[0]);
    assert parse(tokens[1]) == Some(r.value[1]);
    assert parse(tokens[2]) == Some(r.value[2]);
    assert parse(tokens[3]) == Some(r.value[3]);
    assert parse(tokens[4]) == Some(r.value[4]);
    assert |r.value| == 5;
    assert r.value == [1.0, 2.0, 3.0, 4.0, 5.0];
  }

  lemma SplitOneToFive()
    ensures Split("1,2,3,4,5", ',') == ["1", "2", "3", "4", "5"]
  {
    JoinOneToFive();
    SplitJoin(["1", "2", "3", "4", "5"], ',');
  }

  lemma JoinOneToFive()
    ensures Join(["1", "2", "3", "4", "5"], [',']) == "1,2,3,4,5"
  {
    assert Join(["5"], [',']) == "5";
    assert Join(["4", "5"], [',']) == "4,5";
    assert Join(["3", "4", "5"], [',']) == "3,4,5";
    assert Join(["2", "3", "4", "5"], [',']) == "2,3,4,5";
  }

  /** `"text/html"` mentions itself. */
  lemma HtmlTypeIsHtml()
    ensures Occurs("text/html", "text/html")
  {
    assert OccursAt("text/html", "text/html", 0);
  }

  /** `/all?nums=1,2,3,4,5` asked for `text/html` (the numbers 1 to 5
      once parsed, by `ParseOneToFive`): an HTML page showing mean 3,
      median 3 and the modes `1, 2, 3, 4, 5`, given that these numbers
      render as their digits. */
  lemma AllHtmlOfOneToFive(nums: Option<string>, parse: string -> Option<real>, render: real -> string)
    requires ValidateAndParseNums(nums, parse) == Success([1.0, 2.0, 3.0, 4.0, 5.0])
    requires render(1.0) == "1" && render(2.0) == "2" && render(3.0) == "3"
    requires render(4.0) == "4" && render(5.0) == "5"
    ensures AllRoute(nums, Some("text/html"), parse, render).Ok?
    ensures var page := AllRoute(nums, Some("text/html"), parse, render).body.page;
      && Occurs(page, "<p>Mean: 3</p>")
      && Occurs(page, "<p>Median: 3</p>")
      && Occurs(page, "<p>Mode: 1, 2, 3, 4, 5</p>")
  {
    var xs := [1.0, 2.0, 3.0, 4.0, 5.0];
    AllHtmlWhenAsked(nums, parse, render);
    AllOfOneToFive(xs);
    PageOfOneToFive(render);
  }

  /** Asked for `text/html`, `/all` answers with its page. */
  lemma AllHtmlWhenAsked(nums: Option<string>, parse: string -> Option<real>, render: real -> string)
    requires ValidateAndParseNums(nums, parse).Success?
    ensures var xs := ValidateAndParseNums(nums, parse).value;
      |xs| > 0 && AllRoute(nums, Some("text/html"), parse, render) == Ok(Html(AllPage(AllOutcome(xs), render)))
  {
    HtmlTypeIsHtml();
  }

  lemma PageOfOneToFive(render: real -> string)
    requires render(1.0) == "1" && render(2.0) == "2" && render(3.0) == "3"
    requires render(4.0) == "4" && render(5.0) == "5"
    ensures var page := AllPage(AllResponse(3.0, 3.0, List([1.0, 2.0, 3.0, 4.0, 5.0])), render);
      && Occurs(page, "<p>Mean: 3</p>")
      && Occurs(page, "<p>Median: 3</p>")
      && Occurs(page, "<p>Mode: 1, 2, 3, 4, 5</p>")
  {
    var resp := AllResponse(3.0, 3.0, List([1.0, 2.0, 3.0, 4.0, 5.0]));
    AllPageLines(resp, render);
    ModeLineOfOneToFive(render);
    assert "<p>Mean: " + render(resp.mean) + "</p>" == "<p>Mean: 3</p>";
    assert "<p>Median: " + render(resp.median) + "</p>" == "<p>Median: 3</p>";
    assert "<p>Mode: " + ModeLine(resp.mode, render) + "</p>" == "<p>Mode: 1, 2, 3, 4, 5</p>";
  }

  lemma ModeLineOfOneToFive(render: real -> string)
    requires render(1.0) == "1" && render(2.0) == "2" && render(3.0) == "3"
    requires render(4.0) == "4" && render(5.0) == "5"
    ensures ModeLine(List([1.0, 2.0, 3.0, 4.0, 5.0]), render) == "1, 2, 3, 4, 5"
  {
    var m := Map(render, [1.0, 2.0, 3.0, 4.0, 5.0]);
    assert m == ["1", "2", "3", "4", "5"];
    assert Join(["5"], ", ") == "5";
    assert Join(["4", "5"], ", ") == "4, 5";
    assert Join(["3", "4", "5"], ", ") == "3, 4, 5";
    assert Join(["2", "3", "4", "5"], ", ") == "2, 3, 4, 5";
  }
}
