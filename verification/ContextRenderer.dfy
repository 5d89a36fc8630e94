/**
 * The context text given to the language model: `renderSingleEventMarkdown` and the
 * token-budgeted `renderEventsMarkdown` of internal/bus/server_rag.go. A text is a sequence
 * of bytes, one per char.
 */
module ContextRenderer {
  import opened Wrappers
  import opened EventCodec

  type Text = seq<char>

  const HEADER_TOKENS := 40
  const SEPARATOR_TOKENS := 10

  // ------------------------------------------------------------------ one event

  const PRIORITY_KEYS: seq<string> :=
    ["prompt", "message", "query", "text", "description", "content", "response", "result"]

  /** Long values are cut to 197 bytes and an ellipsis. */
  function Truncated(value: Text): (shown: Text)
    ensures |shown| <= 200
    ensures |value| <= 200 ==> shown == value
    ensures |value| > 200 ==> shown == value[..197] + "..."
  {
    if |value| > 200 then value[..197] + "..." else value
  }

  /** The line for one key, if the event's data holds a non-empty string under it. */
  function FieldLine(fields: map<string, Json>, key: string): (line: Option<Text>) {
    if key in fields && fields[key].Str? && fields[key].s != "" then
      Some("  - " + key + ": " + Truncated(fields[key].s))
    else None
  }

  function FieldLines(fields: map<string, Json>, keys: seq<string>): (lines: seq<Text>) {
    if keys == [] then []
    else
      var before := FieldLines(fields, keys[..|keys| - 1]);
      match FieldLine(fields, keys[|keys| - 1])
      case Some(line) => before + [line]
      case None => before
  }

  /** The parts with a separator between any two. */
  function Joined(parts: seq<Text>, separator: Text): (text: Text) {
    if parts == [] then ""
    else if |parts| == 1 then parts[0]
    else parts[0] + separator + Joined(parts[1..], separator)
  }

  function DataFields(e: Event): (fields: map<string, Json>) {
    match e.data
    case Some(ValuePayload(Obj(fields))) => fields
    case _ => map[]
  }

  /** How an event is shown; `format` writes its time. */
  function EventText(e: Event, format: Timestamp -> Text): (text: Text) {
    var time := if e.time.Some? then "**[" + format(e.time.value) + "]** " else "";
    var subject := if e.subject != "" then ": " + e.subject else "";
    var lines := FieldLines(DataFields(e), PRIORITY_KEYS);
    time + e.typ + subject + "\n" + (if |lines| > 0 then Joined(lines, "\n") + "\n" else "")
  }

  method RenderSingleEvent(e: Event, format: Timestamp -> Text) returns (text: Text)
    ensures text == EventText(e, format)
  {
    text := "";
    if e.time.Some? {
      text := text + "**[" + format(e.time.value) + "]** ";
    }
    text := text + e.typ;
    if e.subject != "" {
      text := text + (": " + e.subject);
    }
    text := text + "\n";
    var fields := DataFields(e);
    var keyFields: seq<Text> := [];
    for i := 0 to |PRIORITY_KEYS|
      invariant keyFields == FieldLines(fields, PRIORITY_KEYS[..i])
    {
      assert PRIORITY_KEYS[..i + 1][..i] == PRIORITY_KEYS[..i];
      var line := FieldLine(fields, PRIORITY_KEYS[i]);
      if line.Some? {
        keyFields := keyFields + [line.value];
      }
    }
    assert PRIORITY_KEYS[..|PRIORITY_KEYS|] == PRIORITY_KEYS;
    if |keyFields| > 0 {
      text := text + (Joined(keyFields, "\n") + "\n");
    }
    assert text == EventText(e, format) by {
      var time := if e.time.Some? then "**[" + format(e.time.value) + "]** " else "";
      assert "" + "**[" + (if e.time.Some? then format(e.time.value) else "") + "]** "
             == "**[" + (if e.time.Some? then format(e.time.value) else "") + "]** ";
      assert time + e.typ + "" == time + e.typ;
    }
  }

  // ------------------------------------------------------------------ the whole context

  /** The texts of the events, each shown by `show`. */
  function EventTexts(events: seq<Event>, show: Event -> Text): (texts: seq<Text>)
    ensures |texts| == |events|
    ensures forall i :: 0 <= i < |events| ==> texts[i] == show(events[i])
  {
    if events == [] then [] else [show(events[0])] + EventTexts(events[1..], show)
  }

  /** A rough estimate: four bytes to a token. */
  function Tokens(text: Text): (n: nat) {
    |text| / 4
  }

  /** The tokens of the first n events with a separator after each. */
  function Spent(texts: seq<Text>, n: nat): (tokens: nat)
    requires n <= |texts|
  {
    if n == 0 then 0 else Spent(texts, n - 1) + Tokens(texts[n - 1]) + SEPARATOR_TOKENS
  }

  /** The first n events fit: the header and all of them, the separator after the last one not counted. */
  predicate Fits(texts: seq<Text>, n: nat, maxTokens: int)
    requires n <= |texts|
  {
    n > 0 ==> HEADER_TOKENS + Spent(texts, n - 1) + Tokens(texts[n - 1]) <= maxTokens
  }

  /** The fixed parts around the events. */
  datatype Layout = Layout(header: Text, separator: Text, notice: nat -> Text)

  const HEADER_BYTES := 32
  const SEPARATOR_BYTES := 6

  predicate Sized(layout: Layout) {
    |layout.header| == HEADER_BYTES && |layout.separator| == SEPARATOR_BYTES
  }

  function Body(layout: Layout, texts: seq<Text>, n: nat): (text: Text)
    requires n <= |texts|
  {
    if n == 0 then layout.header else Body(layout, texts, n - 1) + texts[n - 1] + layout.separator
  }

  /**
   * The text is laid out at these offsets: the header, and then each of the first n texts followed by
   * the separator, without gaps; what comes after the last offset is left open.
   */
  ghost predicate Tiled(text: Text, header: Text, separator: Text, texts: seq<Text>, n: nat, at: seq<nat>) {
    && n <= |texts| && |at| == n + 1
    && at[0] == |header| <= |text| && text[..at[0]] == header
    && forall i :: 0 <= i < n ==> TileAt(text, separator, texts[i], at[i], at[i + 1])
  }

  /** The piece and then the separator stand between the two offsets. */
  predicate TileAt(text: Text, separator: Text, piece: Text, from: nat, to: nat) {
    && to == from + |piece| + |separator| <= |text|
    && text[from..from + |piece|] == piece && text[from + |piece|..to] == separator
  }

  lemma TileStays(text: Text, more: Text, separator: Text, piece: Text, from: nat, to: nat)
    requires TileAt(text, separator, piece, from, to)
    ensures TileAt(text + more, separator, piece, from, to)
  {
    assert (text + more)[from..from + |piece|] == text[from..from + |piece|];
    assert (text + more)[from + |piece|..to] == text[from + |piece|..to];
  }

  lemma TiledStays(text: Text, more: Text, header: Text, separator: Text, texts: seq<Text>, n: nat, at: seq<nat>)
    requires Tiled(text, header, separator, texts, n, at)
    ensures Tiled(text + more, header, separator, texts, n, at)
  {
    assert (text + more)[..at[0]] == text[..at[0]];
    forall i | 0 <= i < n ensures TileAt(text + more, separator, texts[i], at[i], at[i + 1]) {
      TileStays(text, more, separator, texts[i], at[i], at[i + 1]);
    }
  }

  lemma NewTile(text: Text, piece: Text, separator: Text)
    ensures TileAt(text + piece + separator, separator, piece, |text|, |text + piece + separator|)
  {
    var r := text + piece + separator;
    assert r[|text|..|text| + |piece|] == piece && r[|text| + |piece|..|r|] == separator;
  }

  /** The body consists of the header and each text with its separator, and of nothing else. */
  lemma {:induction false} BodyIsTiled(layout: Layout, texts: seq<Text>, n: nat) returns (at: seq<nat>)
    requires n <= |texts|
    ensures Tiled(Body(layout, texts, n), layout.header, layout.separator, texts, n, at)
    ensures at[n] == |Body(layout, texts, n)|
  {
    if n == 0 {
      at := [|layout.header|];
    } else {
      var before := BodyIsTiled(layout, texts, n - 1);
      var body, piece, separator := Body(layout, texts, n - 1), texts[n - 1], layout.separator;
      at := before + [|body + piece + separator|];
      TiledStays(body, piece + separator, layout.header, separator, texts, n - 1, before);
      assert body + (piece + separator) == body + piece + separator;
      NewTile(body, piece, separator);
    }
  }

  /** The charge runs from the header's to that of the first n texts, each with its separator, and never over. */
  ghost predicate Charged(texts: seq<Text>, n: nat, maxTokens: int, charge: seq<nat>) {
    && n <= |texts| && |charge| == n + 1 && charge[0] == 40
    && (forall i :: 0 <= i < n ==>
          charge[i + 1] == charge[i] + |texts[i]| / 4 + 10 && charge[i] + |texts[i]| / 4 <= maxTokens)
    && (n < |texts| ==> charge[n] + |texts[n]| / 4 > maxTokens)
  }

  lemma {:induction false} SpentIsCharged(texts: seq<Text>, n: nat, maxTokens: int) returns (charge: seq<nat>)
    requires n <= |texts| && Fits(texts, n, maxTokens)
    ensures |charge| == n + 1 && charge[0] == 40 && charge[n] == HEADER_TOKENS + Spent(texts, n)
    ensures forall i :: 0 <= i < n ==>
              charge[i + 1] == charge[i] + |texts[i]| / 4 + 10 && charge[i] + |texts[i]| / 4 <= maxTokens
  {
    if n == 0 {
      charge := [40];
    } else {
      FitsDownward(texts, n - 1, n, maxTokens);
      var before := SpentIsCharged(texts, n - 1, maxTokens);
      charge := before + [HEADER_TOKENS + Spent(texts, n)];
    }
  }

  /** What a rendering looks like: the tiles, the notice for the rest if there is any, and the charge. */
  ghost predicate LaidOut(text: Text, layout: Layout, texts: seq<Text>, maxTokens: int, n: nat, at: seq<nat>,
      charge: seq<nat>)
  {
    && Tiled(text, layout.header, layout.separator, texts, n, at) && Charged(texts, n, maxTokens, charge)
    && at[n] <= |text| && text[at[n]..] == (if n < |texts| then layout.notice(|texts| - n) else [])
  }

  /** Every rendering is so laid out. */
  lemma RenderingIsLaidOut(text: Text, layout: Layout, texts: seq<Text>, maxTokens: int, n: nat)
    returns (at: seq<nat>, charge: seq<nat>)
    requires Renders(text, n, layout, texts, maxTokens)
    ensures LaidOut(text, layout, texts, maxTokens, n, at, charge)
  {
    at := BodyIsTiled(layout, texts, n);
    assert Fits(texts, n, maxTokens);
    charge := SpentIsCharged(texts, n, maxTokens);
    var body := Body(layout, texts, n);
    if n < |texts| {
      TiledStays(body, layout.notice(|texts| - n), layout.header, layout.separator, texts, n, at);
      assert text[|body|..] == layout.notice(|texts| - n);
      assert !Fits(texts, n + 1, maxTokens);
    } else {
      assert body[|body|..] == [];
    }
  }

  lemma {:induction false} BodyHasHeader(layout: Layout, texts: seq<Text>, n: nat)
    requires n <= |texts|
    ensures |Body(layout, texts, n)| >= |layout.header|
  {
    if n > 0 {
      BodyHasHeader(layout, texts, n - 1);
    }
  }

  /** Fewer events fit whenever more do. */
  lemma {:induction false} FitsDownward(texts: seq<Text>, m: nat, n: nat, maxTokens: int)
    requires m <= n <= |texts| && Fits(texts, n, maxTokens)
    ensures Fits(texts, m, maxTokens)
    decreases n
  {
    if m < n {
      FitsDownward(texts, m, n - 1, maxTokens);
    }
  }

  /** Bytes against tokens: 9 bytes per event can escape the estimate, but 40 are charged for its separator. */
  lemma {:induction false} BodyLength(layout: Layout, texts: seq<Text>, n: nat)
    requires Sized(layout) && n <= |texts|
    ensures |Body(layout, texts, n)| <= HEADER_BYTES + 4 * Spent(texts, n) - 31 * n
  {
    if n > 0 {
      BodyLength(layout, texts, n - 1);
      assert |texts[n - 1]| <= 4 * Tokens(texts[n - 1]) + 3;
    }
  }

  /** The body stays within four bytes per allowed token exactly when an event fits or the bare header does. */
  lemma BodyWithinBudget(layout: Layout, texts: seq<Text>, n: nat, maxTokens: int)
    requires Sized(layout) && n <= |texts| && Fits(texts, n, maxTokens)
    ensures |Body(layout, texts, n)| < 4 * maxTokens <==> n > 0 || HEADER_BYTES < 4 * maxTokens
  {
    BodyLength(layout, texts, n);
  }

  /** If n events fit and n + 1 do not, the numbers of events that fit are exactly those up to n. */
  lemma LongestFit(texts: seq<Text>, n: nat, maxTokens: int)
    requires n <= |texts| && Fits(texts, n, maxTokens)
    requires n < |texts| ==> !Fits(texts, n + 1, maxTokens)
    ensures forall m: nat :: m <= |texts| ==> (Fits(texts, m, maxTokens) <==> m <= n)
  {
    forall m: nat | m <= |texts| ensures Fits(texts, m, maxTokens) <==> m <= n {
      if m <= n {
        FitsDownward(texts, m, n, maxTokens);
      } else if Fits(texts, m, maxTokens) {
        FitsDownward(texts, n + 1, m, maxTokens);
      }
    }
  }

  /** The first `n` texts are rendered: they are the longest prefix that fits, the notice counts the rest. */
  ghost predicate Renders(text: Text, n: nat, layout: Layout, texts: seq<Text>, maxTokens: int) {
    && n <= |texts|
    && text == (if n < |texts| then Body(layout, texts, n) + layout.notice(|texts| - n) else Body(layout, texts, n))
    && (forall m: nat :: m <= |texts| ==> (Fits(texts, m, maxTokens) <==> m <= n))
    && (|Body(layout, texts, n)| < 4 * maxTokens <==> n > 0 || HEADER_BYTES < 4 * maxTokens)
  }

  /** The longest prefix that fits is rendered, whatever its length. */
  ghost predicate RendersWithin(text: Text, layout: Layout, texts: seq<Text>, maxTokens: int) {
    exists n: nat :: Renders(text, n, layout, texts, maxTokens)
  }

  lemma RendersLongest(layout: Layout, texts: seq<Text>, n: nat, maxTokens: int)
    requires Sized(layout) && n <= |texts| && Fits(texts, n, maxTokens)
    requires n < |texts| ==> !Fits(texts, n + 1, maxTokens)
    ensures Renders(if n < |texts| then Body(layout, texts, n) + layout.notice(|texts| - n) else Body(layout, texts, n),
                    n, layout, texts, maxTokens)
  {
    LongestFit(texts, n, maxTokens);
    BodyWithinBudget(layout, texts, n, maxTokens);
  }

  /**
   * Renders the longest prefix of the events that fits the budget, and a notice that counts the
   * rest; `show` renders one event, as EventText does.
   */
  method RenderEvents(events: seq<Event>, maxTokens: int, show: Event -> Text, layout: Layout)
    returns (text: Text)
    requires Sized(layout)
    ensures RendersWithin(text, layout, EventTexts(events, show), maxTokens)
    ensures exists n, at, charge :: LaidOut(text, layout, EventTexts(events, show), maxTokens, n, at, charge)
    ensures text != []
  {
    ghost var texts := EventTexts(events, show);
    text := layout.header;
    var currentTokens := HEADER_TOKENS;
    for i := 0 to |events|
      invariant text == Body(layout, texts, i) && currentTokens == HEADER_TOKENS + Spent(texts, i)
      invariant Fits(texts, i, maxTokens)
    {
      var eventMD := show(events[i]);
      var eventTokens := |eventMD| / 4;
      if currentTokens + eventTokens > maxTokens {
        text := text + layout.notice(|events| - i);
        RendersLongest(layout, texts, i, maxTokens);
        BodyHasHeader(layout, texts, i);
        ghost var at, charge := RenderingIsLaidOut(text, layout, texts, maxTokens, i);
        return;
      }
      text := text + eventMD + layout.separator;
      currentTokens := currentTokens + eventTokens + SEPARATOR_TOKENS;
    }
    RendersLongest(layout, texts, |events|, maxTokens);
    BodyHasHeader(layout, texts, |events|);
    ghost var at, charge := RenderingIsLaidOut(text, layout, texts, maxTokens, |events|);
  }

  // ------------------------------------------------------------------ the texts themselves

  function Digit(d: nat): (c: char)
    requires d < 10
  {
    "0123456789"[d]
  }

  function Decimal(n: nat): (text: Text) {
    if n < 10 then [Digit(n)] else Decimal(n / 10) + [Digit(n % 10)]
  }

  function Value(text: Text): (n: nat) {
    if text == [] || !('0' <= text[|text| - 1] <= '9') then 0
    else 10 * Value(text[..|text| - 1]) + (text[|text| - 1] as int - '0' as int)
  }

  /** The notice states its number, most significant digit first: it can be read back. */
  lemma {:induction false} DecimalStatesNumber(n: nat)
    ensures Decimal(n) != [] && Value(Decimal(n)) == n
    ensures n > 0 ==> Decimal(n)[0] != '0'
  {
    var d := n % 10;
    assert Digit(d) as int - '0' as int == d && '0' <= Digit(d) <= '9';
    if n < 10 {
      assert Decimal(n)[..0] == [];
    } else {
      DecimalStatesNumber(n / 10);
      assert Decimal(n)[..|Decimal(n)| - 1] == Decimal(n / 10);
    }
  }

  const NOTICE_BEFORE := "\n*... and "
  const NOTICE_AFTER := " more relevant events (truncated due to token limit)*\n"

  const CONTEXT_LAYOUT := Layout(
    "## Relevant Historical Context\n\n",
    "\n---\n\n",
    (omitted: nat) => NOTICE_BEFORE + Decimal(omitted) + NOTICE_AFTER)

  lemma ContextLayoutIsSized()
    ensures Sized(CONTEXT_LAYOUT)
  {
    assert |"## Relevant Historical Context\n\n"| == 32;
  }

  const NOTICE_BEFORE_BYTES := 10
  const NOTICE_AFTER_BYTES := 54

  /** The number that a notice states. */
  function Stated(notice: Text): (n: Option<nat>) {
    if |notice| >= NOTICE_BEFORE_BYTES + NOTICE_AFTER_BYTES
    then Some(Value(notice[NOTICE_BEFORE_BYTES..|notice| - NOTICE_AFTER_BYTES]))
    else None
  }

  /** Every notice states the number it is for. */
  ghost predicate Truthful(layout: Layout) {
    forall omitted: nat :: Stated(layout.notice(omitted)) == Some(omitted)
  }

  lemma ContextLayoutIsTruthful()
    ensures Truthful(CONTEXT_LAYOUT)
  {
    assert |NOTICE_BEFORE| == NOTICE_BEFORE_BYTES && |NOTICE_AFTER| == NOTICE_AFTER_BYTES;
    forall omitted: nat ensures Stated(CONTEXT_LAYOUT.notice(omitted)) == Some(omitted) {
      StatedBetween(NOTICE_BEFORE, NOTICE_AFTER, omitted);
    }
  }

  lemma StatedBetween(before: Text, after: Text, omitted: nat)
    requires |before| == NOTICE_BEFORE_BYTES && |after| == NOTICE_AFTER_BYTES
    ensures Stated(before + Decimal(omitted) + after) == Some(omitted)
  {
    var notice := before + Decimal(omitted) + after;
    assert notice[|before|..|notice| - |after|] == Decimal(omitted);
    DecimalStatesNumber(omitted);
  }

  /**
   * The text consists of the header, the first `shown` texts each with a separator, and, if there are
   * more, a notice that states how many.
   */
  ghost predicate Accounts(text: Text, shown: nat, at: seq<nat>, layout: Layout, texts: seq<Text>, maxTokens: int) {
    && Tiled(text, layout.header, layout.separator, texts, shown, at)
    && at[shown] <= |text| && (shown > 0 ==> at[shown] < 4 * maxTokens)
    && (if shown == |texts| then at[shown] == |text| else Stated(text[at[shown]..]) == Some(|texts| - shown))
  }

  lemma RendersAccounts(text: Text, n: nat, layout: Layout, texts: seq<Text>, maxTokens: int) returns (at: seq<nat>)
    requires Truthful(layout) && Renders(text, n, layout, texts, maxTokens)
    ensures Accounts(text, n, at, layout, texts, maxTokens)
  {
    at := BodyIsTiled(layout, texts, n);
    var body := Body(layout, texts, n);
    if n < |texts| {
      TiledStays(body, layout.notice(|texts| - n), layout.header, layout.separator, texts, n, at);
      assert text[|body|..] == layout.notice(|texts| - n);
    }
  }

  // ------------------------------------------------------------------ the layout of one event

  /** These are the wanted positions, each once and in order. */
  ghost predicate Picks(shown: seq<nat>, wanted: set<nat>) {
    && (forall i, j :: 0 <= i < j < |shown| ==> shown[i] < shown[j])
    && (forall k: nat :: k in shown <==> k in wanted)
  }

  lemma PicksNext(shown: seq<nat>, wanted: set<nat>, next: nat)
    requires Picks(shown, wanted) && forall k: nat | k in wanted :: k < next
    ensures Picks(shown + [next], wanted + {next})
  {
    forall i | 0 <= i < |shown| ensures shown[i] < next {
      var k: nat := shown[i];
      assert k in shown;
    }
  }

  lemma {:induction false} JoinedAppend(parts: seq<Text>, part: Text, separator: Text)
    requires parts != []
    ensures Joined(parts + [part], separator) == Joined(parts, separator) + separator + part
  {
    assert (parts + [part])[1..] == parts[1..] + [part];
    if |parts| == 1 {
      assert parts[1..] + [part] == [part];
    } else {
      JoinedAppend(parts[1..], part, separator);
      assert parts[0] + separator + (Joined(parts[1..], separator) + separator + part)
             == parts[0] + separator + Joined(parts[1..], separator) + separator + part;
    }
  }

  function Plain(header: Text, separator: Text): (layout: Layout) {
    Layout(header, separator, (omitted: nat) => "")
  }

  lemma {:induction false} JoinedIsBody(header: Text, separator: Text, parts: seq<Text>, n: nat)
    requires 0 < n <= |parts|
    ensures header + Joined(parts[..n], separator) + separator == Body(Plain(header, separator), parts, n)
  {
    var layout := Plain(header, separator);
    if n == 1 {
      assert Body(layout, parts, 1) == Body(layout, parts, 0) + parts[0] + separator;
    } else {
      JoinedIsBody(header, separator, parts, n - 1);
      assert parts[..n] == parts[..n - 1] + [parts[n - 1]];
      JoinedAppend(parts[..n - 1], parts[n - 1], separator);
      var before := Joined(parts[..n - 1], separator);
      assert header + (before + separator + parts[n - 1]) + separator
             == header + before + separator + parts[n - 1] + separator;
    }
  }

  /** Joined parts behind a header, with one more separator at the end, are tiles. */
  lemma JoinedIsTiled(header: Text, separator: Text, parts: seq<Text>) returns (at: seq<nat>)
    requires parts != []
    ensures var text := header + Joined(parts, separator) + separator;
            Tiled(text, header, separator, parts, |parts|, at) && at[|parts|] == |text|
  {
    JoinedIsBody(header, separator, parts, |parts|);
    assert parts[..|parts|] == parts;
    at := BodyIsTiled(Plain(header, separator), parts, |parts|);
  }

  /** The event's data holds a non-empty text under the k-th key. */
  predicate HasText(e: Event, k: nat) {
    k < 8 && PRIORITY_KEYS[k] in DataFields(e) && DataFields(e)[PRIORITY_KEYS[k]].Str?
    && DataFields(e)[PRIORITY_KEYS[k]].s != ""
  }

  /** Which of the first n keys it holds a text under. */
  function KeysWithText(e: Event, n: nat): (keys: set<nat>) {
    set k: nat | k < n && HasText(e, k)
  }

  /** The line that shows this value under the k-th key. */
  predicate ShowsValue(line: Text, k: nat, value: Text) {
    && k < 8
    && line == "  - " + PRIORITY_KEYS[k] + ": " + (if |value| <= 200 then value else value[..197] + "...")
  }

  ghost predicate LinesShow(lines: seq<Text>, shown: seq<nat>, e: Event) {
    |lines| == |shown| && forall j :: 0 <= j < |shown| ==>
      HasText(e, shown[j]) && ShowsValue(lines[j], shown[j], DataFields(e)[PRIORITY_KEYS[shown[j]]].s)
  }

  lemma {:induction false} FieldLinesShow(e: Event, n: nat) returns (shown: seq<nat>)
    requires n <= 8
    ensures Picks(shown, KeysWithText(e, n))
    ensures LinesShow(FieldLines(DataFields(e), PRIORITY_KEYS[..n]), shown, e)
  {
    if n == 0 {
      shown := [];
    } else {
      var before := FieldLinesShow(e, n - 1);
      assert PRIORITY_KEYS[..n][..n - 1] == PRIORITY_KEYS[..n - 1];
      if HasText(e, n - 1) {
        PicksNext(before, KeysWithText(e, n - 1), n - 1);
        shown := before + [n - 1];
        assert KeysWithText(e, n) == KeysWithText(e, n - 1) + {n - 1};
      } else {
        shown := before;
        assert KeysWithText(e, n) == KeysWithText(e, n - 1);
      }
    }
  }

  /**
   * An event's text is its time, type and subject on one line, followed by one line for each of the
   * known keys, in their order, under which its data holds a non-empty text, long ones cut; and
   * nothing else.
   */
  lemma EventTextIsLaidOut(e: Event, format: Timestamp -> Text)
    returns (shown: seq<nat>, lines: seq<Text>, at: seq<nat>)
    ensures Picks(shown, KeysWithText(e, 8)) && LinesShow(lines, shown, e)
    ensures var header := (if e.time.Some? then "**[" + format(e.time.value) + "]** " else "") + e.typ
                          + (if e.subject != "" then ": " + e.subject else "") + "\n";
            Tiled(EventText(e, format), header, "\n", lines, |lines|, at)
    ensures at[|lines|] == |EventText(e, format)|
  {
    shown := FieldLinesShow(e, 8);
    assert PRIORITY_KEYS[..8] == PRIORITY_KEYS;
    lines := FieldLines(DataFields(e), PRIORITY_KEYS);
    var header := (if e.time.Some? then "**[" + format(e.time.value) + "]** " else "") + e.typ
                  + (if e.subject != "" then ": " + e.subject else "") + "\n";
    if lines == [] {
      at := [|header|];
    } else {
      at := JoinedIsTiled(header, "\n", lines);
      assert header + (Joined(lines, "\n") + "\n") == header + Joined(lines, "\n") + "\n";
    }
  }
}
