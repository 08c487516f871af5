/**
 * The `/api/send-email` route (src/app/api/send-email/route.js): the HTML rows
 * that `sendEmail` builds from the two breakdowns, the message it hands to the
 * mail client, and the status the `POST` handler answers with.
 * The mail client's `send` is not modelled; whether it completes is a parameter.
 */
module SendEmailRoute {
  import opened Wrappers
  import opened JsText
  import Lighthouse
  import ResourceAggregator

  /**
   * A JSON value, as far as the handler observes it: its truthiness and the text
   * a template literal `${...}` makes of it. A number is represented by that text
   * (JavaScript's `String(x)`), an object or array by `String(o)`, or by None when
   * `String(o)` throws a TypeError (an object whose own `toString` is not callable,
   * such as `{"toString": 1}`, has no primitive value to print).
   */
  datatype JsValue = Undefined | Null | Bool(b: bool) | Num(shown: string) | Str(s: string) | Obj(text: Option<string>)

  /** JavaScript truthiness: false, 0, -0, NaN, "", null and undefined are falsy; any object is truthy. */
  predicate Truthy(v: JsValue) {
    match v
    case Undefined => false
    case Null => false
    case Bool(b) => b
    case Num(shown) => shown != "0" && shown != "NaN"
    case Str(s) => s != ""
    case Obj(_) => true
  }

  /** `String(v)` completes: only an object without a printable primitive value throws. */
  predicate Printable(v: JsValue) {
    !(v.Obj? && v.text.None?)
  }

  /** `${v}` in a template literal: its text, or None when the conversion throws. */
  function Interpolate(v: JsValue): (text: Option<string>)
    ensures text.Some? <==> Printable(v)
    ensures v.Str? ==> text == Some(v.s)
    ensures v.Num? ==> text == Some(v.shown)
  {
    match v
    case Undefined => Some("undefined")
    case Null => Some("null")
    case Bool(b) => Some(if b then "true" else "false")
    case Num(shown) => Some(shown)
    case Str(s) => Some(s)
    case Obj(printed) => printed
  }

  /** An item of `resourceSizeData` (the `color` property is not read). */
  datatype SizeItem = SizeItem(name: JsValue, value: JsValue)

  /** An item of `resourceCountData`. */
  datatype CountItem = CountItem(name: JsValue, count: JsValue)

  /** A body property expected to hold an array: an array, or some other JSON value. */
  datatype ListField<T> = Array(items: seq<T>) | NotArray(v: JsValue)

  /** Arrays are truthy, even empty ones. */
  predicate ListTruthy<T>(f: ListField<T>) {
    match f
    case Array(_) => true
    case NotArray(v) => Truthy(v)
  }

  // ---------------------------------------------------------------------------
  // The tables: `.map(item => `<tr>...</tr>`).join("")`.

  const RowOpen := "<tr><td>"
  const CellBreak := "</td><td>"
  const RowClose := "</td></tr>"

  function Row(first: string, second: string): string {
    RowOpen + first + CellBreak + second + RowClose
  }

  /** `parts.join("")`. */
  function Join(parts: seq<string>): string {
    if parts == [] then "" else parts[0] + Join(parts[1..])
  }

  /** The two cells of each row, in order. */
  function Rows(cells: seq<(string, string)>): seq<string> {
    seq(|cells|, i requires 0 <= i < |cells| => Row(cells[i].0, cells[i].1))
  }

  /** Every substitution of the size row template completes. */
  predicate SizeItemsPrintable(items: seq<SizeItem>) {
    forall i :: 0 <= i < |items| ==> Printable(items[i].name) && Printable(items[i].value)
  }

  /** Every substitution of the count row template completes. */
  predicate CountItemsPrintable(items: seq<CountItem>) {
    forall i :: 0 <= i < |items| ==> Printable(items[i].name) && Printable(items[i].count)
  }

  function SizeCells(items: seq<SizeItem>): seq<(string, string)>
    requires SizeItemsPrintable(items)
  {
    seq(|items|, i requires 0 <= i < |items| && SizeItemsPrintable(items) =>
      (Interpolate(items[i].name).value, Interpolate(items[i].value).value + " KB"))
  }

  function CountCells(items: seq<CountItem>): seq<(string, string)>
    requires CountItemsPrintable(items)
  {
    seq(|items|, i requires 0 <= i < |items| && CountItemsPrintable(items) =>
      (Interpolate(items[i].name).value, Interpolate(items[i].count).value))
  }

  /** `resourceSizeTable` (lines 16-18): None when a row's substitution throws. */
  function SizeTable(items: seq<SizeItem>): (table: Option<string>)
    ensures table.Some? <==> SizeItemsPrintable(items)
  {
    if SizeItemsPrintable(items) then Some(Join(Rows(SizeCells(items)))) else None
  }

  /** `resourceCountTable` (lines 20-22): None when a row's substitution throws. */
  function CountTable(items: seq<CountItem>): (table: Option<string>)
    ensures table.Some? <==> CountItemsPrintable(items)
  {
    if CountItemsPrintable(items) then Some(Join(Rows(CountCells(items)))) else None
  }

  /** The text after the prefix p, if s starts with p. */
  function Expect(s: string, p: string): (r: Option<string>)
    ensures r.Some? ==> |r.value| == |s| - |p|
  {
    if StartsWith(s, p) then Some(s[|p|..]) else None
  }

  /** Splits s before its first '<': a cell's text, and what follows it. */
  function ReadCell(s: string): (r: (string, string))
    ensures |r.0| + |r.1| == |s|
  {
    var i := IndexOf(s, '<');
    (s[..i], s[i..])
  }

  /** Reads one row `<tr><td>a</td><td>b</td></tr>`, each cell up to the next '<': the two cells and what follows. */
  function ReadRow(s: string): (r: Option<(string, string, string)>)
    ensures r.Some? ==> |r.value.2| < |s|
  {
    match Expect(s, RowOpen)
    case None => None
    case Some(afterOpen) =>
      var (first, afterFirst) := ReadCell(afterOpen);
      match Expect(afterFirst, CellBreak)
      case None => None
      case Some(afterBreak) =>
        var (second, afterSecond) := ReadCell(afterBreak);
        match Expect(afterSecond, RowClose)
        case None => None
        case Some(afterRow) => Some((first, second, afterRow))
  }

  /** Reads rows back, one after the other, until the text is used up. */
  function ParseTable(s: string): Option<seq<(string, string)>>
    decreases |s|
  {
    if s == [] then Some([])
    else
      match ReadRow(s)
      case None => None
      case Some((first, second, rest)) =>
        match ParseTable(rest)
        case None => None
        case Some(rows) => Some([(first, second)] + rows)
  }

  predicate NoAngle(s: string) {
    forall i :: 0 <= i < |s| ==> s[i] != '<'
  }

  predicate CellsReadable(cells: seq<(string, string)>) {
    forall i :: 0 <= i < |cells| ==> NoAngle(cells[i].0) && NoAngle(cells[i].1)
  }

  lemma ExpectPrefix(p: string, t: string)
    ensures Expect(p + t, p) == Some(t)
  {
    assert (p + t)[..|p|] == p;
    assert (p + t)[|p|..] == t;
  }

  lemma ReadCellBefore(a: string, t: string)
    requires NoAngle(a) && t != [] && t[0] == '<'
    ensures ReadCell(a + t) == (a, t)
  {
    assert (a + t)[|a|] == '<';
    assert IndexOf(a + t, '<') == |a|;
    assert (a + t)[..|a|] == a && (a + t)[|a|..] == t;
  }

  /** A row whose cells hold no '<' is read as exactly those cells, and reading goes on after it. */
  lemma RowThenRest(a: string, b: string, rest: string)
    requires NoAngle(a) && NoAngle(b)
    ensures ReadRow(Row(a, b) + rest) == Some((a, b, rest))
  {
    var afterRow := RowClose + rest;
    var afterBreak := b + afterRow;
    var afterFirst := CellBreak + afterBreak;
    var afterOpen := a + afterFirst;
    RowRegrouped(a, b, rest);
    ExpectPrefix(RowOpen, afterOpen);
    ReadCellBefore(a, afterFirst);
    ExpectPrefix(CellBreak, afterBreak);
    ReadCellBefore(b, afterRow);
    ExpectPrefix(RowClose, rest);
  }

  lemma RowRegrouped(a: string, b: string, rest: string)
    ensures Row(a, b) + rest == RowOpen + (a + (CellBreak + (b + (RowClose + rest))))
  {
  }

  /**
   * The rows read back as exactly the cells they were built from, one row per
   * cell pair and in order, provided no cell holds a '<' (the route does not escape HTML).
   */
  lemma {:induction false} TableRoundTrip(cells: seq<(string, string)>)
    requires CellsReadable(cells)
    ensures ParseTable(Join(Rows(cells))) == Some(cells)
    decreases |cells|
  {
    if cells != [] {
      var a, b := cells[0].0, cells[0].1;
      var tail := cells[1..];
      var rest := Join(Rows(tail));
      JoinRowsFirst(cells);
      ReadableTail(cells);
      TableRoundTrip(tail);
      assert [(a, b)] + tail == cells;
      RowBeforeTable(Join(Rows(cells)), a, b, rest, tail, cells);
    }
  }

  /** A readable row in front of a table that reads as rows adds that row in front. */
  lemma RowBeforeTable(s: string, a: string, b: string, rest: string, rows: seq<(string, string)>, all: seq<(string, string)>)
    requires NoAngle(a) && NoAngle(b) && ParseTable(rest) == Some(rows)
    requires s == Row(a, b) + rest && all == [(a, b)] + rows
    ensures ParseTable(s) == Some(all)
  {
    RowThenRest(a, b, rest);
    assert Row(a, b) + rest != [];
  }

  lemma JoinRowsFirst(cells: seq<(string, string)>)
    requires cells != []
    ensures Join(Rows(cells)) == Row(cells[0].0, cells[0].1) + Join(Rows(cells[1..]))
  {
    assert Rows(cells)[1..] == Rows(cells[1..]);
  }

  lemma ReadableTail(cells: seq<(string, string)>)
    requires cells != [] && CellsReadable(cells)
    ensures CellsReadable(cells[1..])
  {
    forall i | 0 <= i < |cells[1..]| ensures NoAngle(cells[1..][i].0) && NoAngle(cells[1..][i].1) {
      assert cells[1..][i] == cells[i + 1];
    }
  }

  /** Joining is concatenation: row lists that are concatenated give concatenated tables. */
  lemma {:induction false} JoinAppend(a: seq<string>, b: seq<string>)
    ensures Join(a + b) == Join(a) + Join(b)
    decreases |a|
  {
    if a != [] {
      assert (a + b)[0] == a[0];
      assert (a + b)[1..] == a[1..] + b;
      JoinAppend(a[1..], b);
      assert Join(a + b) == a[0] + Join(a[1..] + b);
      assert Join(a) == a[0] + Join(a[1..]);
      assert a[0] + (Join(a[1..]) + Join(b)) == (a[0] + Join(a[1..])) + Join(b);
    } else {
      assert a + b == b;
    }
  }

  /** The size table of two item lists one after the other is the first table followed by the second. */
  lemma SizeTableAppend(a: seq<SizeItem>, b: seq<SizeItem>)
    ensures SizeTable(a + b).Some? <==> SizeTable(a).Some? && SizeTable(b).Some?
    ensures SizeTable(a + b).Some? ==> SizeTable(a + b).value == SizeTable(a).value + SizeTable(b).value
  {
    if SizeItemsPrintable(a) && SizeItemsPrintable(b) {
      forall i | 0 <= i < |a + b| ensures Printable((a + b)[i].name) && Printable((a + b)[i].value) {
        if i < |a| { assert (a + b)[i] == a[i]; } else { assert (a + b)[i] == b[i - |a|]; }
      }
      assert Rows(SizeCells(a + b)) == Rows(SizeCells(a)) + Rows(SizeCells(b));
      JoinAppend(Rows(SizeCells(a)), Rows(SizeCells(b)));
    }
    if SizeItemsPrintable(a + b) {
      forall i | 0 <= i < |a| ensures Printable(a[i].name) && Printable(a[i].value) {
        assert (a + b)[i] == a[i];
      }
      forall i | 0 <= i < |b| ensures Printable(b[i].name) && Printable(b[i].value) {
        assert (a + b)[|a| + i] == b[i];
      }
    }
  }

  /** The count table of two item lists one after the other is the first table followed by the second. */
  lemma CountTableAppend(a: seq<CountItem>, b: seq<CountItem>)
    ensures CountTable(a + b).Some? <==> CountTable(a).Some? && CountTable(b).Some?
    ensures CountTable(a + b).Some? ==> CountTable(a + b).value == CountTable(a).value + CountTable(b).value
  {
    if CountItemsPrintable(a) && CountItemsPrintable(b) {
      forall i | 0 <= i < |a + b| ensures Printable((a + b)[i].name) && Printable((a + b)[i].count) {
        if i < |a| { assert (a + b)[i] == a[i]; } else { assert (a + b)[i] == b[i - |a|]; }
      }
      assert Rows(CountCells(a + b)) == Rows(CountCells(a)) + Rows(CountCells(b));
      JoinAppend(Rows(CountCells(a)), Rows(CountCells(b)));
    }
    if CountItemsPrintable(a + b) {
      forall i | 0 <= i < |a| ensures Printable(a[i].name) && Printable(a[i].count) {
        assert (a + b)[i] == a[i];
      }
      forall i | 0 <= i < |b| ensures Printable(b[i].name) && Printable(b[i].count) {
        assert (a + b)[|a| + i] == b[i];
      }
    }
  }

  /** One `<tr>` row per size item, in input order: the size table reads back as the items' cells. */
  lemma SizeTableRows(items: seq<SizeItem>)
    requires SizeItemsPrintable(items)
    requires forall i :: 0 <= i < |items| ==>
      NoAngle(Interpolate(items[i].name).value) && NoAngle(Interpolate(items[i].value).value)
    ensures SizeTable(items).Some? && |SizeCells(items)| == |items|
    ensures ParseTable(SizeTable(items).value) == Some(SizeCells(items))
    ensures forall i :: 0 <= i < |items| ==>
      && SizeCells(items)[i].0 == Interpolate(items[i].name).value
      && SizeCells(items)[i].1 == Interpolate(items[i].value).value + " KB"
  {
    var cells := SizeCells(items);
    forall i | 0 <= i < |cells| ensures NoAngle(cells[i].0) && NoAngle(cells[i].1) {
      assert NoAngle(" KB");
      assert cells[i].1 == Interpolate(items[i].value).value + " KB";
    }
    TableRoundTrip(cells);
  }

  /** One `<tr>` row per count item, in input order. */
  lemma CountTableRows(items: seq<CountItem>)
    requires CountItemsPrintable(items)
    requires forall i :: 0 <= i < |items| ==>
      NoAngle(Interpolate(items[i].name).value) && NoAngle(Interpolate(items[i].count).value)
    ensures CountTable(items).Some? && |CountCells(items)| == |items|
    ensures ParseTable(CountTable(items).value) == Some(CountCells(items))
    ensures forall i :: 0 <= i < |items| ==>
      && CountCells(items)[i].0 == Interpolate(items[i].name).value
      && CountCells(items)[i].1 == Interpolate(items[i].count).value
  {
    TableRoundTrip(CountCells(items));
  }

  /** `[].map(...).join("")` is the empty string. */
  lemma EmptyTables()
    ensures SizeTable([]) == Some("") && CountTable([]) == Some("")
  {
    assert Rows(SizeCells([])) == [];
    assert Rows(CountCells([])) == [];
  }

  // ---------------------------------------------------------------------------
  // The message (lines 24-48).

  const SubjectPrefix := "Webpage Carbon Analysis Report for "

  /** The subject line: the fixed prefix followed by the url, or None when `${url}` throws. */
  function Subject(url: JsValue): (subject: Option<string>)
    ensures subject.Some? <==> Printable(url)
    ensures subject.Some? ==>
      StartsWith(subject.value, SubjectPrefix) && subject.value[|SubjectPrefix|..] == Interpolate(url).value
  {
    match Interpolate(url)
    case None => None
    case Some(text) => Some(SubjectPrefix + text)
  }

  // The fixed text of the `html` template literal, between its five substitutions.
  const HtmlOpening := "\n      <h2>Webpage Carbon Footprint Analysis</h2>\n      <p><strong>Device:</strong> "
  const HtmlBeforeWeight := "</p>\n      <p><strong>Page Weight:</strong> "
  const HtmlBeforeGrams := " MB</p>\n      <p><strong>CO\U{2082} Emission:</strong> "
  const HtmlBeforeSizeRows := " g</p>\n      \n      <h3>Resource Size Breakdown:</h3>\n      <table border=\"1\" cellspacing=\"0\" cellpadding=\"5\">\n        <tr><th>Resource Type</th><th>Size (KB)</th></tr>\n        "
  const HtmlBeforeCountRows := "\n      </table>\n\n      <h3>Resource Count Breakdown:</h3>\n      <table border=\"1\" cellspacing=\"0\" cellpadding=\"5\">\n        <tr><th>Resource Type</th><th>Count</th></tr>\n        "
  const HtmlClosing := "\n      </table>\n\n      <p>Thank you for using our tool!</p>\n    "

  /** The `html` template literal, or None when one of its three value substitutions throws. */
  function Html(device: JsValue, mb: JsValue, grams: JsValue, sizeTable: string, countTable: string): (html: Option<string>)
    ensures html.Some? <==> Printable(device) && Printable(mb) && Printable(grams)
  {
    if Printable(device) && Printable(mb) && Printable(grams) then
      Some(HtmlOpening + Interpolate(device).value + HtmlBeforeWeight + Interpolate(mb).value
           + HtmlBeforeGrams + Interpolate(grams).value
           + HtmlBeforeSizeRows + sizeTable + HtmlBeforeCountRows + countTable + HtmlClosing)
    else None
  }

  /** `msg`: `to` is the email as given, `from` the configured sender address. */
  datatype Message = Message(to: JsValue, from: Option<string>, subject: string, html: string)

  /** The JSON body, destructured at line 57; an absent property is Undefined. */
  datatype RequestBody = RequestBody(
    email: JsValue, url: JsValue, device: JsValue, mb: JsValue, grams: JsValue,
    resourceSizeData: ListField<SizeItem>, resourceCountData: ListField<CountItem>)

  /**
   * `sendEmail` completes up to the call of the mail client: both breakdowns are
   * arrays (`.map` exists) and every `${...}` substitution on lines 17, 21 and 27-47 completes.
   */
  predicate Composable(body: RequestBody) {
    && body.resourceSizeData.Array? && body.resourceCountData.Array?
    && SizeItemsPrintable(body.resourceSizeData.items) && CountItemsPrintable(body.resourceCountData.items)
    && Printable(body.url) && Printable(body.device) && Printable(body.mb) && Printable(body.grams)
  }

  /**
   * `sendEmail` up to the call of the mail client: the message it would send, or
   * None when it throws first, because `.map` is called on a breakdown that is not
   * an array or because a template substitution throws.
   */
  function ComposeEmail(body: RequestBody, verifiedEmail: Option<string>): (msg: Option<Message>)
    ensures msg.Some? <==> Composable(body)
    ensures msg.Some? ==> msg.value.to == body.email && msg.value.from == verifiedEmail
                          && msg.value.subject == Subject(body.url).value
                          && msg.value.html == Html(body.device, body.mb, body.grams,
                                                    SizeTable(body.resourceSizeData.items).value,
                                                    CountTable(body.resourceCountData.items).value).value
  {
    match body.resourceSizeData
    case NotArray(_) => None
    case Array(sizeItems) =>
      match body.resourceCountData
      case NotArray(_) => None
      case Array(countItems) =>
        match SizeTable(sizeItems)
        case None => None
        case Some(sizeTable) =>
          match CountTable(countItems)
          case None => None
          case Some(countTable) =>
            match Subject(body.url)
            case None => None
            case Some(subject) =>
              match Html(body.device, body.mb, body.grams, sizeTable, countTable)
              case None => None
              case Some(html) => Some(Message(body.email, verifiedEmail, subject, html))
  }

  /** Line 59: every one of the seven properties is truthy. */
  predicate HasRequiredFields(body: RequestBody) {
    && Truthy(body.email) && Truthy(body.url) && Truthy(body.device)
    && Truthy(body.mb) && Truthy(body.grams)
    && ListTruthy(body.resourceSizeData) && ListTruthy(body.resourceCountData)
  }

  /** The JSON response: `message` on success, `error` otherwise, in `text`. */
  datatype Response = Response(status: nat, success: bool, text: string)

  /** The response, and the message handed to the mail client, if one was. */
  datatype PostResult = PostResult(response: Response, attempted: Option<Message>)

  /**
   * `POST`. `body` is None when `req.json()` rejects or yields null (destructuring
   * then throws); `sendCompletes` says whether the mail client's `send` resolves.
   */
  function Post(body: Option<RequestBody>, verifiedEmail: Option<string>, sendCompletes: bool): (r: PostResult)
    ensures r.response.status in {200, 400, 500}
    ensures r.response.success <==> r.response.status == 200
    ensures r.response.status == 400 <==> body.Some? && !HasRequiredFields(body.value)
    ensures r.response.status == 400 ==> r.attempted.None?
    ensures r.attempted.Some? <==> body.Some? && HasRequiredFields(body.value) && Composable(body.value)
    ensures r.response.status == 200 <==> r.attempted.Some? && sendCompletes
    ensures r.attempted.Some? ==> r.attempted == ComposeEmail(body.value, verifiedEmail)
  {
    match body
    case None => PostResult(Response(500, false, "Failed to send email"), None)
    case Some(b) =>
      if !HasRequiredFields(b) then
        PostResult(Response(400, false, "Missing required fields"), None)
      else
        match ComposeEmail(b, verifiedEmail)
        case None => PostResult(Response(500, false, "Failed to send email"), None)
        case Some(msg) =>
          if sendCompletes then PostResult(Response(200, true, "Email sent successfully!"), Some(msg))
          else PostResult(Response(500, false, "Failed to send email"), Some(msg))
  }

  /**
   * Empty breakdown arrays are truthy, so they pass validation; an email without
   * rows is sent, and answered with 200, exactly when the other substitutions complete.
   */
  lemma EmptyBreakdownsAccepted(email: JsValue, url: JsValue, device: JsValue, mb: JsValue, grams: JsValue,
                                verifiedEmail: Option<string>)
    requires Truthy(email) && Truthy(url) && Truthy(device) && Truthy(mb) && Truthy(grams)
    ensures var r := Post(Some(RequestBody(email, url, device, mb, grams, Array([]), Array([]))), verifiedEmail, true);
      && r.response.status != 400
      && (r.response == Response(200, true, "Email sent successfully!") && r.attempted.Some?
          <==> Printable(url) && Printable(device) && Printable(mb) && Printable(grams))
  {
  }

  /**
   * A body that passes validation but makes `sendEmail` throw before the send (say
   * a `device` of `{"toString": 1}`) is answered by the catch with 500, and nothing is sent.
   */
  lemma ThrowingBodyFails(body: RequestBody, verifiedEmail: Option<string>, sendCompletes: bool)
    requires HasRequiredFields(body) && !Composable(body)
    ensures Post(Some(body), verifiedEmail, sendCompletes) == PostResult(Response(500, false, "Failed to send email"), None)
  {
  }

  /** The object `{"toString": 1}` is truthy, yet `${...}` of it throws. */
  lemma NonCallableToString()
    ensures Truthy(Obj(None)) && Interpolate(Obj(None)).None?
  {
  }

  // ---------------------------------------------------------------------------
  // What the route receives from `fetchData` in HeroSection.js (by way of the email service).

  /**
   * A size entry after the JSON round trip of `JSON.stringify` in the email service
   * and `req.json()` here: the name, and the value printed as JavaScript prints it.
   */
  function SizeItemsOf(entries: seq<ResourceAggregator.SizeEntry>): (items: seq<SizeItem>)
    ensures |items| == |entries| && SizeItemsPrintable(items)
    ensures forall i :: 0 <= i < |entries| ==>
      Interpolate(items[i].name) == Some(entries[i].name) && Interpolate(items[i].value) == Some(HundredthsText(entries[i].value))
  {
    seq(|entries|, i requires 0 <= i < |entries| => SizeItem(Str(entries[i].name), Num(HundredthsText(entries[i].value))))
  }

  /** A count entry after the same round trip: the name, and the count printed as JavaScript prints it. */
  function CountItemsOf(entries: seq<ResourceAggregator.CountEntry>): (items: seq<CountItem>)
    ensures |items| == |entries| && CountItemsPrintable(items)
    ensures forall i :: 0 <= i < |entries| ==>
      Interpolate(items[i].name) == Some(entries[i].name) && Interpolate(items[i].count) == Some(NatToString(entries[i].count))
  {
    seq(|entries|, i requires 0 <= i < |entries| => CountItem(Str(entries[i].name), Num(NatToString(entries[i].count))))
  }

  lemma NameHasNoAngle(c: ResourceAggregator.Category)
    ensures NoAngle(ResourceAggregator.Name(c))
  {
  }

  lemma NumeralsHaveNoAngle(h: nat, n: nat)
    ensures NoAngle(HundredthsText(h)) && NoAngle(NatToString(n))
  {
  }

  /** The size table of a breakdown has one row per entry: its name and its value in KB. */
  lemma SizeReportRows(entries: seq<ResourceAggregator.SizeEntry>)
    requires forall i :: 0 <= i < |entries| ==> NoAngle(entries[i].name)
    ensures SizeTable(SizeItemsOf(entries)).Some?
    ensures var rows := ParseTable(SizeTable(SizeItemsOf(entries)).value);
      && rows.Some? && |rows.value| == |entries|
      && forall i :: 0 <= i < |entries| ==> rows.value[i] == (entries[i].name, HundredthsText(entries[i].value) + " KB")
  {
    var items := SizeItemsOf(entries);
    forall i | 0 <= i < |items|
      ensures NoAngle(Interpolate(items[i].name).value) && NoAngle(Interpolate(items[i].value).value)
    {
      NumeralsHaveNoAngle(entries[i].value, 0);
    }
    SizeTableRows(items);
  }

  /** The count table of a breakdown has one row per entry: its name and its count. */
  lemma CountReportRows(entries: seq<ResourceAggregator.CountEntry>)
    requires forall i :: 0 <= i < |entries| ==> NoAngle(entries[i].name)
    ensures CountTable(CountItemsOf(entries)).Some?
    ensures var rows := ParseTable(CountTable(CountItemsOf(entries)).value);
      && rows.Some? && |rows.value| == |entries|
      && forall i :: 0 <= i < |entries| ==> rows.value[i] == (entries[i].name, NatToString(entries[i].count))
  {
    var items := CountItemsOf(entries);
    forall i | 0 <= i < |items|
      ensures NoAngle(Interpolate(items[i].name).value) && NoAngle(Interpolate(items[i].count).value)
    {
      NumeralsHaveNoAngle(0, entries[i].count);
    }
    CountTableRows(items);
  }

  /**
   * The emailed tables of an aggregation have one row per category, in the order
   * the categories were first met: row i names category keys[i] and shows the
   * KB value of its summed bytes, resp. its number of records.
   */
  lemma ReportTables(rs: seq<Lighthouse.ResourceRecord>, i: nat)
    requires i < |ResourceAggregator.Tallied(rs, ResourceAggregator.Bytes).keys|
    ensures SizeTable(SizeItemsOf(ResourceAggregator.SizeBreakdown(ResourceAggregator.Tallied(rs, ResourceAggregator.Bytes)))).Some?
    ensures CountTable(CountItemsOf(ResourceAggregator.CountBreakdown(ResourceAggregator.Tallied(rs, ResourceAggregator.Requests)))).Some?
    ensures var keys := ResourceAggregator.Tallied(rs, ResourceAggregator.Bytes).keys;
            var sizeRows := ParseTable(SizeTable(SizeItemsOf(
              ResourceAggregator.SizeBreakdown(ResourceAggregator.Tallied(rs, ResourceAggregator.Bytes)))).value);
            var countRows := ParseTable(CountTable(CountItemsOf(
              ResourceAggregator.CountBreakdown(ResourceAggregator.Tallied(rs, ResourceAggregator.Requests)))).value);
      && sizeRows.Some? && |sizeRows.value| == |keys|
      && countRows.Some? && |countRows.value| == |keys|
      && sizeRows.value[i] == (ResourceAggregator.Name(keys[i]),
           HundredthsText(ResourceAggregator.KilobyteHundredths(
             ResourceAggregator.CategoryTotal(rs, ResourceAggregator.Bytes, keys[i]))) + " KB")
      && countRows.value[i] == (ResourceAggregator.Name(keys[i]),
           NatToString(ResourceAggregator.CategoryTotal(rs, ResourceAggregator.Requests, keys[i])))
  {
    var sizes := ResourceAggregator.SizeBreakdown(ResourceAggregator.Tallied(rs, ResourceAggregator.Bytes));
    var counts := ResourceAggregator.CountBreakdown(ResourceAggregator.Tallied(rs, ResourceAggregator.Requests));
    ResourceAggregator.KeysIndependentOfMeasure(rs);
    ResourceAggregator.BreakdownValues(rs, i);
    forall k | 0 <= k < |sizes| ensures NoAngle(sizes[k].name) {
      NameHasNoAngle(ResourceAggregator.Tallied(rs, ResourceAggregator.Bytes).keys[k]);
    }
    forall k | 0 <= k < |counts| ensures NoAngle(counts[k].name) {
      NameHasNoAngle(ResourceAggregator.Tallied(rs, ResourceAggregator.Requests).keys[k]);
    }
    SizeReportRows(sizes);
    CountReportRows(counts);
  }
}
