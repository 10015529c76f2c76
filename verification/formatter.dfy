/** Response shapes: `formatResponse` (app.js:55-62), which the single
    routes use, and the `Accept` defaulting they share with `/all`
    (app.js:77, app.js:154). Rendering a number as text (JavaScript's
    Number-to-string conversion) is a parameter `render`. */
module ResponseFormatter {
  import opened Results
  import opened Seqs
  import opened Text
  import opened Statistics

  /** What a handler sends back: the JSON object `{ operation, value }`
      or an HTML page. */
  datatype Body = Json(operation: string, value: Value) | Html(page: string)

  /** `req.headers.accept || "application/json"`: an absent or empty
      header is replaced by `"application/json"`. */
  function AcceptOrDefault(header: Option<string>): (accept: string)
    ensures header.None? ==> accept == "application/json"
    ensures header.Some? && header.value == "" ==> accept == "application/json"
    ensures header.Some? && header.value != "" ==> accept == header.value
  {
    match header
    case None => "application/json"
    case Some(h) => if h == "" then "application/json" else h
  }

  /** `${value}` in a template: a number renders on its own, an array
      renders its elements joined by `","` (`Array.prototype.toString`). */
  function ValueText(value: Value, render: real -> string): string {
    match value
    case Scalar(x) => render(x)
    case List(items) => Join(Map(render, items), ",")
  }

  /** The single-route HTML page. */
  function SinglePage(operation: string, text: string): string {
    "<html><body><h1>" + operation + "</h1><p>Result: " + text + "</p></body></html>"
  }

  /** `formatResponse(operation, value, accept)`: JSON whenever the header
      asks for `application/json`, HTML when it asks only for
      `text/html`, JSON otherwise. */
  function FormatResponse(operation: string, value: Value, accept: string, render: real -> string): (b: Body)
    ensures b.Html? <==> !Occurs(accept, "application/json") && Occurs(accept, "text/html")
    ensures b.Json? ==> b.operation == operation && b.value == value
    ensures b.Html? ==> OccursAt(b.page, "<h1>" + operation + "</h1>", |"<html><body>"|)
    ensures b.Html? ==> Occurs(b.page, "<p>Result: " + ValueText(value, render) + "</p>")
  {
    if Includes(accept, "application/json") then Json(operation, value)
    else if Includes(accept, "text/html") then
      var page := SinglePage(operation, ValueText(value, render));
      PageParts(operation, ValueText(value, render));
      Html(page)
    else Json(operation, value)
  }

  /** Where the heading and the result line sit in the single-route page. */
  lemma PageParts(operation: string, text: string)
    ensures OccursAt(SinglePage(operation, text), "<h1>" + operation + "</h1>", |"<html><body>"|)
    ensures Occurs(SinglePage(operation, text), "<p>Result: " + text + "</p>")
  {
    var page := SinglePage(operation, text);
    var heading := "<h1>" + operation + "</h1>";
    var result := "<p>Result: " + text + "</p>";
    assert page == "<html><body>" + heading + (result + "</body></html>");
    OccursInside("<html><body>", heading, result + "</body></html>");
    assert page == ("<html><body>" + heading) + result + "</body></html>";
    OccursInside("<html><body>" + heading, result, "</body></html>");
  }
}
