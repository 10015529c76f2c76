/** The request handlers' pure logic: `/mean`, `/median` and `/mode`
    (app.js:73-134) parse, compute and format through `formatResponse`;
    `/all` (app.js:138-168) computes all three statistics on one array and
    picks JSON or HTML by its own rule. Every handler answers a parse error
    with status 400 and the error's message. */
module Routes {
  import opened Results
  import opened Seqs
  import opened Ordering
  import opened Text
  import opened NumberListParser
  import opened Statistics
  import opened Frequency
  import opened ModeProperties
  import opened ResponseFormatter

  /** The three single-statistic routes. */
  datatype Op = MeanOp | MedianOp | ModeOp

  /** The `operation` field each route reports. */
  function OpName(op: Op): string {
    match op
    case MeanOp => "mean"
    case MedianOp => "median"
    case ModeOp => "mode"
  }

  /** The statistic a route computes on the parsed numbers. */
  function Compute(op: Op, xs: seq<real>): Value
    requires |xs| > 0
  {
    match op
    case MeanOp => Scalar(Mean(xs))
    case MedianOp => Scalar(Median(xs))
    case ModeOp => Mode(xs)
  }

  /** The `response` object `/all` builds (its `operation` is always
      `"all"`). */
  datatype AllResponse = AllResponse(mean: real, median: real, mode: Value)

  /** What a handler sends: a body with status 200, the `/all` JSON
      object, or status 400 with `{ error: message }`. */
  datatype Reply = Ok(body: Body) | AllJson(response: AllResponse) | BadRequest(error: string)

  /** A single-statistic route. */
  function StatRoute(op: Op, nums: Option<string>, header: Option<string>,
                     parse: string -> Option<real>, render: real -> string): (r: Reply)
    ensures r.BadRequest? <==> ValidateAndParseNums(nums, parse).Failure?
    ensures r.BadRequest? ==> r.error == Message(ValidateAndParseNums(nums, parse).error)
    ensures r.Ok? ==>
      var xs := ValidateAndParseNums(nums, parse).value;
      && |xs| > 0
      && r.body == FormatResponse(OpName(op), Compute(op, xs), AcceptOrDefault(header), render)
      && (r.body.Json? ==> r.body == Json(OpName(op), Compute(op, xs)))
      && (r.body.Html? <==> !Occurs(AcceptOrDefault(header), "application/json") && Occurs(AcceptOrDefault(header), "text/html"))
      && (r.body.Html? ==> Occurs(r.body.page, "<p>Result: " + ValueText(Compute(op, xs), render) + "</p>"))
    ensures !r.AllJson?
  {
    match ValidateAndParseNums(nums, parse)
    case Failure(e) => BadRequest(Message(e))
    case Success(xs) => Ok(FormatResponse(OpName(op), Compute(op, xs), AcceptOrDefault(header), render))
  }

  /** `Array.isArray(m) && m.length === 1 ? m[0] : m`. */
  function Unwrap(m: Value): (r: Value)
    ensures Items(r) == Items(m)
    ensures r.List? ==> |r.items| != 1
  {
    if m.List? && |m.items| == 1 then Scalar(m.items[0]) else m
  }

  /** `mode` never returns a one-element array, so the unwrap in `/all`
      changes nothing. */
  lemma UnwrapModeIsNoOp(xs: seq<real>)
    ensures Unwrap(Mode(xs)) == Mode(xs)
  {
    var m := Mode(xs);
    assert !(m.List? && |m.items| == 1);
  }

  /** The statistics `/all` computes. `median` sorts the array in place
      before `mode` reads it, so the mode is that of the sorted array. */
  function AllOutcome(xs: seq<real>): (r: AllResponse)
    requires |xs| > 0
    ensures Scale(|xs|, r.mean) == Sum(xs)
    ensures Min(xs) <= r.median <= Max(xs)
    ensures forall v :: v in Items(r.mode) <==> v in xs && multiset(xs)[v] == MaxFrequency(xs)
  {
    var run := SortAndMedian(xs);
    ModeSetPermutation(xs, run.sorted);
    MaxFrequencyPermutation(xs, run.sorted);
    AllResponse(Mean(xs), run.median, Unwrap(Mode(run.sorted)))
  }

  /** `/all` agrees with the single routes on the mean, the median, the
      set of modes and whether the mode is a bare number; when every value
      is an array index it agrees on the mode outright. */
  lemma AllAgreesWithSingleRoutes(xs: seq<real>)
    requires |xs| > 0
    ensures AllOutcome(xs).mean == Mean(xs)
    ensures AllOutcome(xs).median == Median(xs)
    ensures forall v :: v in Items(AllOutcome(xs).mode) <==> v in Items(Mode(xs))
    ensures AllOutcome(xs).mode.Scalar? <==> Mode(xs).Scalar?
    ensures AllArrayIndices(xs) ==> AllOutcome(xs).mode == Mode(xs)
  {
    var sorted := SortAndMedian(xs).sorted;
    UnwrapModeIsNoOp(sorted);
    ModeSetPermutation(xs, sorted);
    if AllArrayIndices(xs) {
      ModeOfArrayIndicesPermutation(xs, sorted);
    }
  }

  /** The `/all` HTML page, whitespace included. */
  function AllPage(resp: AllResponse, render: real -> string): string {
    AllHead
    + Paragraph("Mean", render(resp.mean)) + LineBreak
    + Paragraph("Median", render(resp.median)) + LineBreak
    + Paragraph("Mode", ModeLine(resp.mode, render))
    + AllTail
  }

  /** The page up to the first statistic. */
  const AllHead := "\n        <html>\n          <body>\n            <h1>All Operations</h1>\n            "
  /** Between two statistics. */
  const LineBreak := "\n            "
  /** The page after the last statistic. */
  const AllTail := "\n          </body>\n        </html>\n      "

  /** `<p>name: text</p>`. */
  function Paragraph(name: string, text: string): string {
    "<p>" + name + ": " + text + "</p>"
  }

  /** The mode as `/all` prints it: a bare number, or the modes joined
      with `", "`. */
  function ModeLine(mode: Value, render: real -> string): string {
    match mode
    case Scalar(x) => render(x)
    case List(items) => Join(Map(render, items), ", ")
  }

  /** The `/all` route: HTML exactly when the header mentions `text/html`,
      whatever else it mentions; the JSON object otherwise. */
  function AllRoute(nums: Option<string>, header: Option<string>,
                    parse: string -> Option<real>, render: real -> string): (r: Reply)
    ensures r.BadRequest? <==> ValidateAndParseNums(nums, parse).Failure?
    ensures r.BadRequest? ==> r.error == Message(ValidateAndParseNums(nums, parse).error)
    ensures r.AllJson? ==> !Occurs(AcceptOrDefault(header), "text/html")
    ensures r.Ok? ==> r.body.Html? && Occurs(AcceptOrDefault(header), "text/html")
    ensures !r.BadRequest? ==>
      var xs := ValidateAndParseNums(nums, parse).value;
      && |xs| > 0
      && (r.AllJson? ==> r.response == AllOutcome(xs))
      && (r.Ok? ==> r.body == Html(AllPage(AllOutcome(xs), render)))
  {
    match ValidateAndParseNums(nums, parse)
    case Failure(e) => BadRequest(Message(e))
    case Success(xs) =>
      var resp := AllOutcome(xs);
      if Includes(AcceptOrDefault(header), "text/html") then Ok(Html(AllPage(resp, render)))
      else AllJson(resp)
  }

  /** The `/all` page shows each statistic on its own line. */
  lemma AllPageLines(resp: AllResponse, render: real -> string)
    ensures Occurs(AllPage(resp, render), "<p>Mean: " + render(resp.mean) + "</p>")
    ensures Occurs(AllPage(resp, render), "<p>Median: " + render(resp.median) + "</p>")
    ensures Occurs(AllPage(resp, render), "<p>Mode: " + ModeLine(resp.mode, render) + "</p>")
  {
    var a := Paragraph("Mean", render(resp.mean));
    var b := Paragraph("Median", render(resp.median));
    var c := Paragraph("Mode", ModeLine(resp.mode, render));
    var s1 := AllHead + a;
    var s2 := s1 + LineBreak + b;
    var s3 := s2 + LineBreak + c;
    OccursAtEnd(AllHead, a);
    OccursAtExtend(s1, LineBreak, a, |AllHead|);
    OccursAtExtend(s1 + LineBreak, b, a, |AllHead|);
    OccursAtEnd(s1 + LineBreak, b);
    OccursAtExtend(s2, LineBreak, a, |AllHead|);
    OccursAtExtend(s2, LineBreak, b, |s1 + LineBreak|);
    OccursAtExtend(s2 + LineBreak, c, a, |AllHead|);
    OccursAtExtend(s2 + LineBreak, c, b, |s1 + LineBreak|);
    OccursAtEnd(s2 + LineBreak, c);
    OccursAtExtend(s3, AllTail, a, |AllHead|);
    OccursAtExtend(s3, AllTail, b, |s1 + LineBreak|);
    OccursAtExtend(s3, AllTail, c, |s2 + LineBreak|);
    assert a == "<p>Mean: " + render(resp.mean) + "</p>";
    assert b == "<p>Median: " + render(resp.median) + "</p>";
    assert c == "<p>Mode: " + ModeLine(resp.mode, render) + "</p>";
  }
}
