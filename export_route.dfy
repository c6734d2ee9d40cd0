/** The export endpoint: it turns posted HTML into a PDF or a Word document,
    or posted rows into CSV. Rendering the PDF and converting HTML to a
    Word document are done by libraries outside this model; the model says
    which HTML reaches them and what the endpoint answers. */
module ExportRoute {
  import opened Common
  import opened JsValue

  // ------------------------------------------------------------ entities

  /** `decodeEntities(str)`: the five basic entities, `&amp;` last. */
  function DecodeEntities(s: string): (r: string)
    ensures |r| <= |s|
  {
    if s == [] then s
    else
      var s1 := ReplaceAll(s, "&lt;", "<");
      var s2 := ReplaceAll(s1, "&gt;", ">");
      var s3 := ReplaceAll(s2, "&quot;", "\"");
      var s4 := ReplaceAll(s3, "&#39;", "'");
      var s5 := ReplaceAll(s4, "&#039;", "'");
      ReplaceShortens(s, "&lt;", "<");
      ReplaceShortens(s1, "&gt;", ">");
      ReplaceShortens(s2, "&quot;", "\"");
      ReplaceShortens(s3, "&#39;", "'");
      ReplaceShortens(s4, "&#039;", "'");
      ReplaceShortens(s5, "&amp;", "&");
      ReplaceAll(s5, "&amp;", "&")
  }

  /** Replacing a pattern with a shorter text never lengthens a text. */
  lemma {:induction false} ReplaceShortens(s: string, p: string, r: string)
    requires 0 < |r| <= |p|
    ensures |ReplaceAll(s, p, r)| <= |s|
    decreases |s|
  {
    if |s| >= |p| {
      if s[..|p|] == p {
        ReplaceShortens(s[|p|..], p, r);
      } else {
        ReplaceShortens(s[1..], p, r);
      }
    }
  }

  /** A text with no ampersand is left as it is: every pattern starts with
      one, and no replacement brings one in until the last. */
  lemma DecodeWithoutAmpersand(s: string)
    requires '&' !in s
    ensures DecodeEntities(s) == s
  {
    if s != [] {
      var ps := ["&lt;", "&gt;", "&quot;", "&#39;", "&#039;", "&amp;"];
      forall k | 0 <= k < |ps| ensures !Contains(s, ps[k]) {
        ContainsCharOf(s, ps[k], '&');
        assert ps[k][0] == '&';
      }
      ReplaceAbsent(s, ps[0], "<");
      ReplaceAbsent(s, ps[1], ">");
      ReplaceAbsent(s, ps[2], "\"");
      ReplaceAbsent(s, ps[3], "'");
      ReplaceAbsent(s, ps[4], "'");
      ReplaceAbsent(s, ps[5], "&");
    }
  }

  /** A pattern starting with `&` that does not match at the only `&` of a
      text leaves the text as it is. */
  lemma ReplaceMissesHead(t: string, p: string, r: string)
    requires t != [] && |p| > 1 && p[0] == '&' && '&' !in t[1..]
    requires |t| < |p| || t[1] != p[1]
    ensures ReplaceAll(t, p, r) == t
  {
    if |t| >= |p| {
      assert t[..|p|][1] == t[1];
      assert !Contains(t[1..], p) by {
        if Contains(t[1..], p) { ContainsCharOf(t[1..], p, '&'); }
      }
      ReplaceAbsent(t[1..], p, r);
      assert t == [t[0]] + t[1..];
    }
  }

  /** `&amp;` is decoded last, so what it decodes to is not decoded again:
      `&amp;lt;` becomes `&lt;`, not `<`. */
  lemma AmpersandDecodedLast(t: string)
    requires '&' !in t
    ensures DecodeEntities("&amp;" + t) == "&" + t
  {
    var s := "&amp;" + t;
    assert s[1..] == "amp;" + t;
    ReplaceMissesHead(s, "&lt;", "<");
    ReplaceMissesHead(s, "&gt;", ">");
    ReplaceMissesHead(s, "&quot;", "\"");
    ReplaceMissesHead(s, "&#39;", "'");
    ReplaceMissesHead(s, "&#039;", "'");
    assert s[..5] == "&amp;" && s[5..] == t;
    assert !Contains(t, "&amp;") by {
      if Contains(t, "&amp;") { ContainsCharOf(t, "&amp;", '&'); }
    }
    ReplaceAbsent(t, "&amp;", "&");
  }

  /** The HTML looks entity-encoded: after trimming it starts with `&lt;`,
      or it contains `&lt;html` anywhere. */
  predicate LooksEncoded(html: string)
  {
    html != [] && (StartsWith(Trim(html), "&lt;") || Contains(html, "&lt;html"))
  }

  /** The HTML the export works on: decoded when it looks encoded. */
  function PreparedHtml(html: string): (r: string)
    ensures !LooksEncoded(html) ==> r == html
    ensures '&' !in html ==> r == html
  {
    if LooksEncoded(html) then
      if '&' !in html then DecodeWithoutAmpersand(html); DecodeEntities(html)
      else DecodeEntities(html)
    else html
  }

  // ------------------------------------------------------------ body

  /** The first occurrence of `p` at or after `from`. */
  function FindFrom(s: string, p: string, from: nat): (r: Option<nat>)
    ensures r.Some? ==> from <= r.value && OccursAt(s, p, r.value)
    ensures r.Some? ==> forall j: nat :: from <= j < r.value ==> !OccursAt(s, p, j)
    ensures r.None? ==> forall j: nat :: from <= j ==> !OccursAt(s, p, j)
    decreases |s| - from
  {
    if from + |p| > |s| then None
    else if OccursAt(s, p, from) then Some(from)
    else FindFrom(s, p, from + 1)
  }

  /** The last occurrence of `p` at or after `from` and before `end`. */
  function LastBefore(s: string, p: string, from: nat, end: nat): (r: Option<nat>)
    ensures r.Some? ==> from <= r.value < end && OccursAt(s, p, r.value)
    ensures r.Some? ==> forall j: nat :: r.value < j < end ==> !OccursAt(s, p, j)
    ensures r.None? ==> forall j: nat :: from <= j < end ==> !OccursAt(s, p, j)
    decreases end
  {
    if end <= from then None
    else if OccursAt(s, p, end - 1) then Some(end - 1)
    else LastBefore(s, p, from, end - 1)
  }

  /** `html.match(/<body[^>]*>([\s\S]*)<\/body>/i)[1]`: from the first `<body`
      (in any case) and the first `>` after it, up to the last `</body>`. */
  function BodyInner(html: string): (r: Option<string>)
    ensures !Contains(Lower(html), "<body") ==> r.None?
    ensures r.Some? ==> Contains(Lower(html), "<body") && Contains(Lower(html), "</body>")
    ensures r.Some? ==> |r.value| + |"<body>"| + |"</body>"| <= |html|
  {
    var low := Lower(html);
    match FindFrom(low, "<body", 0)
    case None => None
    case Some(i) =>
      match FindFrom(low, ">", i + 5)
      case None => None
      case Some(g) =>
        match LastBefore(low, "</body>", g + 1, |low| + 1)
        case None => None
        case Some(e) =>
          assert OccursAt(low, "<body", i) && OccursAt(low, "</body>", e);
          Some(html[g + 1..e])
  }

  /** The HTML handed to the Word converter: the body's content when there
      is a body element, the whole HTML otherwise. */
  function DocxHtml(html: string): (r: string)
    ensures !Contains(Lower(html), "<body") ==> r == html
    ensures |r| <= |html|
  {
    match BodyInner(html)
    case Some(inner) => inner
    case None => html
  }

  /** Lower case distributes over concatenation. */
  lemma LowerAppend(a: string, b: string)
    ensures Lower(a + b) == Lower(a) + Lower(b)
  {
    var l, r := Lower(a + b), Lower(a) + Lower(b);
    forall k | 0 <= k < |l| ensures l[k] == r[k] {
      if k < |a| { assert (a + b)[k] == a[k]; } else { assert (a + b)[k] == b[k - |a|]; }
    }
  }

  /** The lower-cased text of a body element. */
  lemma LowerBody(open: string, attrs: string, inner: string, close: string)
    requires Lower(open) == "<body" && Lower(close) == "</body>"
    ensures Lower(open + attrs + ">" + inner + close) == "<body" + Lower(attrs) + ">" + Lower(inner) + "</body>"
  {
    LowerAppend(open + attrs + ">" + inner, close);
    LowerAppend(open + attrs + ">", inner);
    LowerAppend(open + attrs, ">");
    LowerAppend(open, attrs);
    assert Lower(">") == ">";
  }

  /** Where the pattern finds the parts of a lower-cased body element. */
  lemma BodyPositions(la: string, li: string)
    requires '>' !in la
    ensures var low := "<body" + la + ">" + li + "</body>";
            FindFrom(low, "<body", 0) == Some(0)
            && FindFrom(low, ">", 5) == Some(5 + |la|)
            && LastBefore(low, "</body>", 6 + |la|, |low| + 1) == Some(6 + |la| + |li|)
  {
    var low := "<body" + la + ">" + li + "</body>";
    assert OccursAt(low, "<body", 0);
    var g := 5 + |la|;
    assert OccursAt(low, ">", g);
    forall j: nat | 5 <= j < g ensures !OccursAt(low, ">", j) {
      assert low[j] == la[j - 5];
    }
    var e := g + 1 + |li|;
    assert low[e..] == "</body>";
    assert OccursAt(low, "</body>", e);
  }

  /** A body element, written in any case and with any attributes, gives
      exactly its content, whatever the content holds. */
  lemma DocxTakesBody(open: string, attrs: string, inner: string, close: string)
    requires Lower(open) == "<body" && Lower(close) == "</body>" && '>' !in attrs
    ensures DocxHtml(open + attrs + ">" + inner + close) == inner
  {
    var html := open + attrs + ">" + inner + close;
    LowerBody(open, attrs, inner, close);
    var la := Lower(attrs);
    assert '>' !in la by {
      forall k | 0 <= k < |la| ensures la[k] != '>' {
        assert attrs[k] != '>';
      }
    }
    BodyPositions(la, Lower(inner));
    assert |open| == 5 && |la| == |attrs|;
    assert html[6 + |attrs|..6 + |attrs| + |inner|] == inner;
  }

  // ------------------------------------------------------------ JSON text

  /** A hexadecimal digit, lower case. */
  function HexDigit(d: nat): (c: char)
    requires d < 16
  {
    "0123456789abcdef"[d]
  }

  /** `JSON.stringify` of one character inside a string. */
  function EscapeChar(c: char): (r: string)
    ensures r != [] && '\n' !in r
  {
    if c == '"' then "\\\""
    else if c == '\\' then "\\\\"
    else if c == '\n' then "\\n"
    else if c == '\r' then "\\r"
    else if c == '\t' then "\\t"
    else if c == 8 as char then "\\b"
    else if c == 12 as char then "\\f"
    else if (c as int) < 32 then "\\u00" + [HexDigit(c as int / 16), HexDigit(c as int % 16)]
    else [c]
  }

  /** The characters of a string, escaped. */
  function Escape(s: string): (r: string)
    ensures '\n' !in r
  {
    if s == [] then [] else EscapeChar(s[0]) + Escape(s[1..])
  }

  /** `JSON.stringify(s)` for a string. */
  function Quote(s: string): (r: string)
    ensures |r| >= 2 && r[0] == '"' && r[|r| - 1] == '"' && '\n' !in r
  {
    "\"" + Escape(s) + "\""
  }

  /** The character a one-letter escape `\\x` stands for. */
  function Unescaped(x: char): Option<char>
  {
    match x
    case '"' => Some('"')
    case '\\' => Some('\\')
    case 'n' => Some('\n')
    case 'r' => Some('\r')
    case 't' => Some('\t')
    case 'b' => Some(8 as char)
    case 'f' => Some(12 as char)
    case _ => None
  }

  /** The value of a lower-case hexadecimal digit. */
  function HexValue(c: char): (r: Option<nat>)
    ensures r.Some? ==> r.value < 16 && HexDigit(r.value) == c
  {
    if '0' <= c <= '9' then Some(c as int - '0' as int)
    else if 'a' <= c <= 'f' then Some(c as int - 'a' as int + 10)
    else None
  }

  /** The control character a `\\u00xy` escape at the start of `t` stands for. */
  function ControlEscape(t: string): Option<char>
  {
    if |t| >= 6 && t[..4] == "\\u00" && HexValue(t[4]).Some? && HexValue(t[5]).Some? && HexValue(t[4]).value < 2 then
      Some((HexValue(t[4]).value * 16 + HexValue(t[5]).value) as char)
    else None
  }

  /** The character the text starts with, once escapes are read, and how
      many characters it takes; `None` when no escape starts there. */
  function Step(t: string): (r: Option<(char, nat)>)
    requires t != []
    ensures r.Some? ==> 0 < r.value.1 <= |t|
  {
    if t[0] != '\\' then Some((t[0], 1))
    else if |t| >= 2 && Unescaped(t[1]).Some? then Some((Unescaped(t[1]).value, 2))
    else if ControlEscape(t).Some? then Some((ControlEscape(t).value, 6))
    else None
  }

  /** Reading back what `Escape` wrote: `None` for text it cannot have
      written. */
  function Unescape(t: string): (r: Option<string>)
    decreases |t|
  {
    if t == [] then Some([])
    else match Step(t)
      case None => None
      case Some((c, n)) =>
        match Unescape(t[n..])
        case None => None
        case Some(rest) => Some([c] + rest)
  }

  /** An escaped character is read back in one step. */
  lemma StepEscaped(c: char, rest: string)
    ensures Step(EscapeChar(c) + rest) == Some((c, |EscapeChar(c)|))
  {
    var e := EscapeChar(c);
    var t := e + rest;
    if |e| == 2 {
      assert t[0] == '\\' && t[1] == e[1];
      assert Unescaped(t[1]) == Some(c);
    } else if |e| == 6 {
      StepControl(c, rest);
    } else {
      assert t[0] == c;
    }
  }

  /** A control character without a one-letter escape is read back from
      its `\\u00xy` form. */
  lemma StepControl(c: char, rest: string)
    requires |EscapeChar(c)| == 6
    ensures Step(EscapeChar(c) + rest) == Some((c, 6))
  {
    var t := EscapeChar(c) + rest;
    var hi, lo := c as int / 16, c as int % 16;
    assert t[..4] == "\\u00" && t[1] == 'u';
    assert t[4] == HexDigit(hi) && t[5] == HexDigit(lo);
    assert HexValue(t[4]) == Some(hi) && HexValue(t[5]) == Some(lo);
    assert ControlEscape(t) == Some(c);
  }

  /** Reading back one escaped character. */
  lemma UnescapeChar(c: char, rest: string)
    requires Unescape(rest).Some?
    ensures Unescape(EscapeChar(c) + rest) == Some([c] + Unescape(rest).value)
  {
    var e := EscapeChar(c);
    var t := e + rest;
    StepEscaped(c, rest);
    assert t[|e|..] == rest;
  }

  /** Escaping is undone by unescaping: the quoted text stands for exactly
      the string it was made from. */
  lemma {:induction false} UnescapeEscape(s: string)
    ensures Unescape(Escape(s)) == Some(s)
    decreases |s|
  {
    if s != [] {
      UnescapeEscape(s[1..]);
      UnescapeChar(s[0], Escape(s[1..]));
      assert s == [s[0]] + s[1..];
    }
  }

  /** A double quote inside a value is escaped with a backslash, as JSON
      does, where RFC 4180 section 2 doubles it. */
  lemma QuoteEscapesWithBackslash()
    ensures Quote("a\"b") == "\"a\\\"b\""
  {
    assert Escape("a\"b") == "a" + "\\\"" + "b";
  }

  /** `JSON.stringify(v)`: a value from a JSON request body as JSON text. An
      `undefined` value has no text. */
  function Stringify(v: Js): (r: string)
    ensures '\n' !in r
    decreases v, 1, 0
  {
    match v
    case Null => "null"
    case Undefined => ""
    case Bool(b) => if b then "true" else "false"
    case Num(n) => NumberText(n)
    case Str(s) => Quote(s)
    case Arr(items) => "[" + ItemsText(v, 0) + "]"
    case Obj(fields) => "{" + FieldsText(v, 0) + "}"
  }

  /** The elements of an array from index `from` on, `undefined` ones
      written as `null`. */
  function ItemsText(v: Js, from: nat): (r: string)
    requires v.Arr? && from <= |v.items|
    ensures '\n' !in r
    decreases v, 0, |v.items| - from
  {
    if from == |v.items| then ""
    else
      var item := v.items[from];
      var first := if item.Undefined? then "null" else Stringify(item);
      if from + 1 == |v.items| then first else first + "," + ItemsText(v, from + 1)
  }

  /** The fields of an object from index `from` on, leaving out the
      `undefined` ones. */
  function FieldsText(v: Js, from: nat): (r: string)
    requires v.Obj? && from <= |v.fields|
    ensures '\n' !in r
    decreases v, 0, |v.fields| - from
  {
    if from == |v.fields| then ""
    else
      var (key, value) := v.fields[from];
      var rest := FieldsText(v, from + 1);
      if value.Undefined? then rest
      else
        var field := Quote(key) + ":" + Stringify(value);
        if rest == "" then field else field + "," + rest
  }

  // ------------------------------------------------------------ CSV

  /** `row[header] || ''` written as JSON. */
  function Cell(row: Js, header: string): (r: string)
    ensures '\n' !in r
  {
    Stringify(Or(Get(row, header), Str("")))
  }

  /** The cells of a row, one per header, in header order. */
  function Cells(row: Js, headers: seq<string>): (r: seq<string>)
    ensures |r| == |headers| && forall k :: 0 <= k < |r| ==> r[k] == Cell(row, headers[k])
  {
    seq(|headers|, k requires 0 <= k < |headers| => Cell(row, headers[k]))
  }

  /** A row's line: its cells separated by commas. */
  function RowLine(row: Js, headers: seq<string>): (r: string)
    ensures '\n' !in r
  {
    var cells := Cells(row, headers);
    JoinAvoids(cells, ",", '\n');
    Join(cells, ",")
  }

  /** Joining pieces free of `c` with a separator free of `c`. */
  lemma {:induction false} JoinAvoids(parts: seq<string>, sep: string, c: char)
    requires c !in sep && forall k :: 0 <= k < |parts| ==> c !in parts[k]
    ensures c !in Join(parts, sep)
    decreases |parts|
  {
    if |parts| > 1 {
      JoinAvoids(parts[1..], sep, c);
    }
  }

  /** The CSV text: the header line, then one line per row. The headers
      are `Object.keys` of the first row, which throws on `null` or
      `undefined`; each row's cells read `row[header]`, which throws on a
      `null` or `undefined` row unless there are no headers to read. */
  function CsvText(rows: seq<Js>): (r: Result<string>)
    requires rows != []
    ensures r.Thrown? <==> Nullish(rows[0]) || (Keys(rows[0]) != [] && SomeNullish(rows))
  {
    var headers := Keys(rows[0]);
    if Nullish(rows[0]) || (headers != [] && SomeNullish(rows)) then Thrown
    else
      var lines := [Join(headers, ",")] + seq(|rows|, i requires 0 <= i < |rows| => RowLine(rows[i], headers));
      Ok(Join(lines, "\n"))
  }

  /** Joining with a separator that no piece contains, then splitting on it,
      gives the pieces back. */
  lemma {:induction false} SplitJoined(parts: seq<string>, c: char)
    requires parts != [] && forall k :: 0 <= k < |parts| ==> c !in parts[k]
    ensures Split(Join(parts, [c]), c) == parts
    decreases |parts|
  {
    if |parts| == 1 {
      SplitWithoutSeparator(parts[0], c);
    } else {
      var rest := parts[1..];
      assert forall k :: 0 <= k < |rest| ==> c !in rest[k] by {
        forall k | 0 <= k < |rest| ensures c !in rest[k] {
          assert rest[k] == parts[k + 1];
        }
      }
      SplitJoined(rest, c);
      assert Join(parts, [c]) == parts[0] + [c] + Join(rest, [c]);
      SplitAfterHead(parts[0], Join(rest, [c]), c);
      assert [parts[0]] + rest == parts;
    }
  }

  /** The CSV has one line more than there are rows: the header names the
      first row's keys, and each further line is that row's cells, one per
      header, in header order. This holds when no key holds a line break:
      every cell is JSON text, which never does. */
  lemma CsvLines(rows: seq<Js>)
    requires rows != [] && CsvText(rows).Ok?
    requires forall k :: 0 <= k < |Keys(rows[0])| ==> '\n' !in Keys(rows[0])[k]
    ensures var lines := Split(CsvText(rows).value, '\n');
            |lines| == |rows| + 1
            && lines[0] == Join(Keys(rows[0]), ",")
            && forall i :: 0 <= i < |rows| ==> lines[i + 1] == Join(Cells(rows[i], Keys(rows[0])), ",")
  {
    var headers := Keys(rows[0]);
    JoinAvoids(headers, ",", '\n');
    var lines := [Join(headers, ",")] + seq(|rows|, i requires 0 <= i < |rows| => RowLine(rows[i], headers));
    SplitJoined(lines, '\n');
  }

  // ------------------------------------------------------------ request

  /** The fields of an export request. `content` and `html` are strings,
      empty when absent; `filename` is absent when not given. */
  datatype Request = Request(format: string, mode: string, filename: Option<string>,
                             content: string, html: string, data: Js)

  /** What the endpoint does: an error status, or the HTML or text it turns
      into a file, with the file's content type and disposition header. */
  datatype Outcome =
    | Failed(status: nat, error: string)
    | Pdf(html: string, disposition: string)
    | Docx(html: string, disposition: string)
    | Csv(text: string, disposition: string)
    | Threw  // a TypeError passed to `next`, which the error middleware answers with status 500

  const DefaultFilename := "exported-document"

  /** The rows a CSV export is made of: a quiz's questions or a deck's cards
      when the data holds them, the data itself otherwise. */
  function ExportRows(mode: string, data: Js): (r: Js)
    ensures r == data || r == Get(data, "quiz") || r == Get(data, "flashcards")
  {
    if mode == "quiz" && Truthy(data) && Truthy(Get(data, "quiz")) then Get(data, "quiz")
    else if mode == "flashcards" && Truthy(data) && Truthy(Get(data, "flashcards")) then Get(data, "flashcards")
    else data
  }

  /** `POST /export`. `rendered` says whether the browser produced a
      non-empty PDF. */
  function Export(req: Request, rendered: bool): (r: Outcome)
    ensures r.Pdf? ==> req.format == "pdf" && rendered
    ensures r.Docx? ==> req.format == "docx"
    ensures r.Csv? || r.Threw? ==> req.format == "csv"
    ensures r.Failed? ==> r.status == 400 || (r.status == 500 && req.format == "pdf" && !rendered)
  {
    var name := match req.filename case Some(f) => f case None => DefaultFilename;
    var html := PreparedHtml(if req.content != [] then req.content else req.html);
    if html == [] && (req.format == "pdf" || req.format == "docx") then Failed(400, "No content to export")
    else if req.format == "pdf" then
      if rendered then Pdf(html, "attachment; filename=\"" + name + ".pdf\"")
      else Failed(500, "PDF Generation Failed")
    else if req.format == "docx" then Docx(DocxHtml(html), "attachment; filename=" + name + ".docx")
    else if req.format == "csv" then CsvOutcome(ExportRows(req.mode, req.data), name)
    else Failed(400, "Unsupported format")
  }

  /** The CSV branch of the endpoint, for the rows chosen from the data. */
  function CsvOutcome(rows: Js, name: string): (r: Outcome)
    ensures r.Failed? ==> r.status == 400
    ensures r.Failed? || r.Csv? || r.Threw?
    ensures !rows.Arr? ==> r == Failed(400, "CSV export requires an array of data")
    ensures rows == Arr([]) ==> r == Failed(400, "No data to export")
    ensures rows.Arr? && rows.items != [] ==> (r == Threw <==> CsvText(rows.items).Thrown?)
    ensures rows.Arr? && rows.items != [] && CsvText(rows.items).Ok? ==>
              r == Csv(CsvText(rows.items).value, "attachment; filename=" + name + ".csv")
  {
    if !rows.Arr? then Failed(400, "CSV export requires an array of data")
    else if rows.items == [] then Failed(400, "No data to export")
    else match CsvText(rows.items)
      case Thrown => Threw
      case Ok(text) => Csv(text, "attachment; filename=" + name + ".csv")
  }

  /** The request's HTML is empty exactly when both fields are. */
  lemma PreparedEmpty(s: string)
    ensures PreparedHtml(s) == [] <==> s == []
  {
    if s != [] && LooksEncoded(s) {
      DecodeNonEmpty(s);
    }
  }

  /** Replacing with a non-empty text never empties a text. */
  lemma {:induction false} ReplaceNonEmpty(s: string, p: string, r: string)
    requires |p| > 0 && r != [] && s != []
    ensures ReplaceAll(s, p, r) != []
    decreases |s|
  {
  }

  /** Decoding never empties a text. */
  lemma DecodeNonEmpty(s: string)
    requires s != []
    ensures DecodeEntities(s) != []
  {
    var s1 := ReplaceAll(s, "&lt;", "<");
    ReplaceNonEmpty(s, "&lt;", "<");
    var s2 := ReplaceAll(s1, "&gt;", ">");
    ReplaceNonEmpty(s1, "&gt;", ">");
    var s3 := ReplaceAll(s2, "&quot;", "\"");
    ReplaceNonEmpty(s2, "&quot;", "\"");
    var s4 := ReplaceAll(s3, "&#39;", "'");
    ReplaceNonEmpty(s3, "&#39;", "'");
    var s5 := ReplaceAll(s4, "&#039;", "'");
    ReplaceNonEmpty(s4, "&#039;", "'");
    ReplaceNonEmpty(s5, "&amp;", "&");
  }

  /** A PDF or Word export without HTML is refused with status 400; an
      unknown format is refused with status 400 whether or not there is
      HTML. */
  lemma ExportRefusals(req: Request, rendered: bool)
    ensures (req.format == "pdf" || req.format == "docx") && req.content == [] && req.html == [] ==>
              Export(req, rendered) == Failed(400, "No content to export")
    ensures req.format !in {"pdf", "docx", "csv"} ==> Export(req, rendered) == Failed(400, "Unsupported format")
  {
    PreparedEmpty(if req.content != [] then req.content else req.html);
  }

  /** A CSV export of data that is not a list, or of an empty list, is
      refused with status 400; a list whose first row is `null` or
      `undefined`, or with such a later row when the first row has keys,
      throws; otherwise it is the rows' CSV. */
  lemma CsvExport(req: Request, rendered: bool)
    requires req.format == "csv"
    ensures var rows := ExportRows(req.mode, req.data);
            var r := Export(req, rendered);
            (!rows.Arr? ==> r == Failed(400, "CSV export requires an array of data"))
            && (rows == Arr([]) ==> r == Failed(400, "No data to export"))
            && (rows.Arr? && rows.items != [] ==>
                  (r == Threw <==> Nullish(rows.items[0]) || (Keys(rows.items[0]) != [] && SomeNullish(rows.items))))
            && (rows.Arr? && rows.items != [] && r != Threw ==> r.Csv? && r.text == CsvText(rows.items).value)
  {
    var name := match req.filename case Some(f) => f case None => DefaultFilename;
    CsvRouted(req, rendered);
  }

  /** A CSV request goes to the CSV branch. */
  lemma CsvRouted(req: Request, rendered: bool)
    requires req.format == "csv"
    ensures Export(req, rendered)
         == CsvOutcome(ExportRows(req.mode, req.data), match req.filename case Some(f) => f case None => DefaultFilename)
  {
    assert req.format != "pdf" && req.format != "docx";
  }

  /** A `null` row after a first row with keys makes the export throw. */
  lemma NullRowThrows(name: string)
    ensures CsvOutcome(Arr([Obj([("question", Str("q"))]), Null]), name) == Threw
  {
    var rows := [Obj([("question", Str("q"))]), Null];
    assert Keys(rows[0]) == ["question"];
    assert Nullish(rows[1]);
  }

  /** A quiz export lists the quiz's questions when the data holds any. */
  lemma QuizRowsUnwrapped(questions: seq<Js>)
    requires questions != []
    ensures ExportRows("quiz", Obj([("quiz", Arr(questions))])) == Arr(questions)
  {
  }

  /** A Word export converts only the body's content when there is a body,
      and the HTML is decoded first when it looks encoded. */
  lemma DocxExport(req: Request, rendered: bool)
    requires req.format == "docx" && (req.content != [] || req.html != [])
    ensures var html := PreparedHtml(if req.content != [] then req.content else req.html);
            Export(req, rendered).Docx? && Export(req, rendered).html == DocxHtml(html)
  {
    PreparedEmpty(if req.content != [] then req.content else req.html);
  }
}
