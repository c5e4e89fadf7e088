/**
 Click events as text: how a producer writes one, how a consumer reads, checks and cleans
 it, and how a batch becomes one multi-row INSERT.
 (src/workers/analyticsFlushWorker.ts:44-58, 92-125; src/services/analytics/analyticsService.ts:34-37, 43-74)
 */
module ClickEvents {
  import opened Environment
  import opened WhiteSpace
  import Decimal

  /******* Cleaning text *******/

  const TEXT_LIMIT := 512

  /** `substring(0, 512)`. */
  function Truncate(s: string): string {
    if |s| <= TEXT_LIMIT then s else s[..TEXT_LIMIT]
  }

  /** What follows a tag whose '<' has been read: everything after the next '>', if any. */
  function AfterTag(s: string): (rest: string)
    ensures |rest| <= |s|
  {
    if s == "" then "" else if s[0] == '>' then s[1..] else AfterTag(s[1..])
  }

  /** `replace(/<[^>]*>?/gm, '')`. */
  function StripTags(s: string): string
    decreases |s|
  {
    if s == "" then ""
    else if s[0] == '<' then StripTags(AfterTag(s[1..]))
    else [s[0]] + StripTags(s[1..])
  }

  /** `replace(/[<>]/g, '')`. */
  function DropAngles(s: string): string {
    if s == "" then ""
    else if s[0] == '<' || s[0] == '>' then DropAngles(s[1..])
    else [s[0]] + DropAngles(s[1..])
  }

  /** `AnalyticsFlushWorker.sanitize`. */
  function WorkerSanitize(value: string): string {
    Truncate(Trim(StripTags(value)))
  }

  /** `AnalyticsService.sanitize`. */
  function ServiceSanitize(value: string): string {
    Truncate(Trim(DropAngles(value)))
  }

  /** What both sanitisers produce: short, tag-free text that does not start with a space. */
  predicate Normal(s: string) {
    |s| <= TEXT_LIMIT && '<' !in s && (s == "" || !IsSpace(s[0]))
  }

  lemma {:induction false} StripTagsRemovesOpeners(s: string)
    ensures '<' !in StripTags(s)
    decreases |s|
  {
    if s != "" {
      StripTagsRemovesOpeners(if s[0] == '<' then AfterTag(s[1..]) else s[1..]);
    }
  }

  lemma {:induction false} StripTagsIdentity(s: string)
    requires '<' !in s
    ensures StripTags(s) == s
  {
    if s != "" {
      StripTagsIdentity(s[1..]);
    }
  }

  lemma {:induction false} DropAnglesRemoves(s: string)
    ensures '<' !in DropAngles(s) && '>' !in DropAngles(s)
  {
    if s != "" {
      DropAnglesRemoves(s[1..]);
    }
  }

  lemma TrimTruncateNormal(s: string)
    requires '<' !in s
    ensures Normal(Truncate(Trim(s)))
  {
    TrimLeftShape(s);
    TrimRightShape(TrimLeft(s));
  }

  /** Both sanitisers yield text with no '<' and at most 512 characters. */
  lemma SanitizersNormalize(value: string)
    ensures Normal(WorkerSanitize(value))
    ensures Normal(ServiceSanitize(value)) && '>' !in ServiceSanitize(value)
  {
    StripTagsRemovesOpeners(value);
    TrimTruncateNormal(StripTags(value));
    DropAnglesRemoves(value);
    TrimTruncateNormal(DropAngles(value));
    TrimLeftShape(DropAngles(value));
    TrimRightShape(TrimLeft(DropAngles(value)));
  }

  /** On such text the worker's sanitiser only cuts the trailing white space. */
  lemma SanitizeNormal(s: string)
    requires Normal(s)
    ensures WorkerSanitize(s) == TrimRight(s) && Normal(TrimRight(s))
    ensures TrimRight(TrimRight(s)) == TrimRight(s)
  {
    StripTagsIdentity(s);
    TrimRightShape(s);
  }

  /** Applied twice the sanitiser removes at most trailing white space; a third
      application changes nothing. */
  lemma SanitizeSettles(value: string)
    ensures WorkerSanitize(WorkerSanitize(value)) == TrimRight(WorkerSanitize(value))
    ensures WorkerSanitize(WorkerSanitize(WorkerSanitize(value))) == WorkerSanitize(WorkerSanitize(value))
  {
    SanitizersNormalize(value);
    SanitizeNormal(WorkerSanitize(value));
    SanitizeNormal(TrimRight(WorkerSanitize(value)));
  }

  /** The text a flush stores is the text the producer buffered, right-trimmed. */
  lemma StoredTextIsBufferedText(value: string)
    ensures WorkerSanitize(ServiceSanitize(value)) == TrimRight(ServiceSanitize(value))
  {
    SanitizersNormalize(value);
    SanitizeNormal(ServiceSanitize(value));
  }

  /** Cutting keeps the first 512 characters, or all there are. */
  lemma TruncateExactly(s: string)
    ensures |s| <= 512 ==> Truncate(s) == s
    ensures |s| > 512 ==> |Truncate(s)| == 512 && Truncate(s) <= s
  {
  }

  /** A tag goes from its '<' to the next '>', or to the end where there is none; the rest stays. */
  lemma {:induction false} StripTagsExactly(before: string, tag: string, after: string)
    requires '<' !in before && '>' !in tag
    ensures StripTags(before + "<" + tag + ">" + after) == before + StripTags(after)
    ensures StripTags(before + "<" + tag) == before
  {
    if before == "" {
      AfterTagExactly(tag, after);
      assert (before + "<" + tag + ">" + after)[1..] == tag + ">" + after && (before + "<" + tag)[1..] == tag;
    } else {
      StripTagsExactly(before[1..], tag, after);
      assert (before + "<" + tag + ">" + after)[1..] == before[1..] + "<" + tag + ">" + after;
      assert (before + "<" + tag)[1..] == before[1..] + "<" + tag;
    }
  }

  lemma {:induction false} AfterTagExactly(tag: string, after: string)
    requires '>' !in tag
    ensures AfterTag(tag + ">" + after) == after && AfterTag(tag) == ""
  {
    if tag == "" {
      assert (tag + ">" + after)[1..] == after;
    } else {
      AfterTagExactly(tag[1..], after);
      assert (tag + ">" + after)[1..] == tag[1..] + ">" + after;
    }
  }

  lemma DropAnglesFirst(c: char, rest: string)
    ensures DropAngles([c] + rest) == (if c == '<' || c == '>' then "" else [c]) + DropAngles(rest)
  {
    assert ([c] + rest)[1..] == rest;
  }

  lemma DropAnglesOne(c: char)
    ensures DropAngles([c]) == if c == '<' || c == '>' then "" else [c]
  {
    DropAnglesFirst(c, "");
    assert [c] + "" == [c];
  }

  /** Character by character, angle brackets go and everything else stays, in order. */
  lemma {:induction false} DropAnglesExactly(a: string, b: string)
    ensures DropAngles(a + b) == DropAngles(a) + DropAngles(b)
  {
    if a == "" {
      assert a + b == b;
    } else {
      var c, rest := a[0], a[1..];
      DropAnglesExactly(rest, b);
      DropAnglesFirst(c, rest);
      DropAnglesFirst(c, rest + b);
      hide DropAngles;
      assert a == [c] + rest && a + b == [c] + (rest + b);
    }
  }

  lemma {:induction false} DropAnglesIdentity(s: string)
    requires '<' !in s && '>' !in s
    ensures DropAngles(s) == s
  {
    if s != "" {
      DropAnglesIdentity(s[1..]);
    }
  }

  /** Text without angle brackets: both sanitisers take off the white space around it first and
      keep its first 512 characters then. */
  lemma SanitizersExactly(left: string, s: string, right: string)
    requires AllSpace(left) && AllSpace(right) && Trimmed(s) && '<' !in s && '>' !in s
    ensures WorkerSanitize(left + s + right) == s[..Min(|s|, 512)]
    ensures ServiceSanitize(left + s + right) == s[..Min(|s|, 512)]
  {
    hide StripTags, DropAngles, Trim;
    var value := left + s + right;
    assert !IsSpace('<') && !IsSpace('>');
    assert '<' !in value && '>' !in value;
    StripTagsIdentity(value);
    DropAnglesIdentity(value);
    TrimExactly(left, s, right);
  }

  /** Cleaned text stays as it is, up to white space at its end, when the producer cleans it again. */
  lemma ServiceSanitizeAgain(value: string)
    ensures ServiceSanitize(ServiceSanitize(value)) == TrimRight(ServiceSanitize(value))
  {
    hide IsSpace;
    SanitizersNormalize(value);
    DropAnglesIdentity(ServiceSanitize(value));
    TrimRightShape(ServiceSanitize(value));
  }

  /******* Events *******/

  datatype Json =
    | Null
    | Boolean(b: bool)
    | Numeric(n: real)
    | Text(text: string)
    | List(items: seq<Json>)
    | Object(fields: map<string, Json>)

  /** One element of the Redis list: JSON text of a value, or text `JSON.parse` rejects. */
  datatype Raw = Encoded(value: Json) | Garbage(text: string)

  datatype Event = Event(urlId: string, timestamp: string, ip: string, userAgent: string, referer: string)

  /** Library predicates the model does not look into: `net.isIP(x) !== 0` and
      `!isNaN(Number(s))` on non-empty text. */
  datatype Checks = Checks(isIP: string -> bool, isNumeric: string -> bool)

  /** Plain decimal text is a number to JavaScript. */
  ghost predicate Sound(checks: Checks) {
    forall s {:trigger checks.isNumeric(s)} :: s != "" && Decimal.AllDigits(s) ==> checks.isNumeric(s)
  }

  lemma SoundExactly(checks: Checks)
    ensures Sound(checks) <==>
              forall s {:trigger checks.isNumeric(s)} ::
                s != "" && (forall i :: 0 <= i < |s| ==> '0' <= s[i] <= '9') ==> checks.isNumeric(s)
  {
  }

  function Field(value: Json, name: string): Option<Json> {
    if value.Object? && name in value.fields then Some(value.fields[name]) else None
  }

  predicate IsText(field: Option<Json>) {
    field.Some? && field.value.Text?
  }

  /** `validateEvent` on the parsed text. Reading a property of null throws, and the caller's
      catch block discards the event just as a failed check does. */
  predicate WellFormed(checks: Checks, raw: Raw) {
    && raw.Encoded?
    && var id, ip := Field(raw.value, "url_id"), Field(raw.value, "ip_address");
    && id.Some?
    && (id.value.Numeric? || (id.value.Text? && id.value.text != "" && checks.isNumeric(id.value.text)))
    && IsText(Field(raw.value, "timestamp"))
    && IsText(ip) && checks.isIP(ip.value.text)
    && IsText(Field(raw.value, "user_agent"))
    && IsText(Field(raw.value, "referer"))
  }

  /** The event `trackClick` builds from a request. */
  function Captured(urlId: string, timestamp: string, ip: string, userAgent: string, referer: string): Event {
    Event(urlId, timestamp, ip, ServiceSanitize(userAgent), ServiceSanitize(referer))
  }

  /** `JSON.stringify` of that event. */
  function Payload(e: Event): Raw {
    Encoded(Object(map["url_id" := Text(e.urlId), "timestamp" := Text(e.timestamp),
                       "ip_address" := Text(e.ip), "user_agent" := Text(e.userAgent),
                       "referer" := Text(e.referer)]))
  }

  /** Every event a producer pushes for a decimal url id passes the consumer's check. */
  lemma PayloadWellFormed(checks: Checks, e: Event)
    requires Sound(checks) && e.urlId != "" && Decimal.AllDigits(e.urlId) && checks.isIP(e.ip)
    ensures WellFormed(checks, Payload(e))
  {
    assert checks.isNumeric(e.urlId);
  }

  lemma PayloadInjective(e: Event, f: Event)
    requires Payload(e) == Payload(f)
    ensures e == f
  {
    var a, b := Payload(e).value.fields, Payload(f).value.fields;
    assert a["url_id"] == b["url_id"] && a["timestamp"] == b["timestamp"];
    assert a["ip_address"] == b["ip_address"] && a["user_agent"] == b["user_agent"];
    assert a["referer"] == b["referer"];
  }

  /** The check looks at each of the five fields and at nothing else: without one, or with null
      in its place, an event fails, whatever else it has; any further field is ignored. */
  lemma EachFieldChecked(checks: Checks, fields: map<string, Json>, name: string, value: Json)
    requires WellFormed(checks, Encoded(Object(fields)))
    ensures name in {"url_id", "timestamp", "ip_address", "user_agent", "referer"} ==>
              !WellFormed(checks, Encoded(Object(fields - {name})))
              && !WellFormed(checks, Encoded(Object(fields[name := Null])))
    ensures name !in {"url_id", "timestamp", "ip_address", "user_agent", "referer"} ==>
              WellFormed(checks, Encoded(Object(fields[name := value])))
  {
  }

  /** What each field may hold: a number or numeric text, text, an address, text, text. */
  lemma FieldValuesChecked(checks: Checks, fields: map<string, Json>, value: Json)
    requires WellFormed(checks, Encoded(Object(fields)))
    ensures WellFormed(checks, Encoded(Object(fields["url_id" := value]))) <==>
              value.Numeric? || (value.Text? && value.text != "" && checks.isNumeric(value.text))
    ensures WellFormed(checks, Encoded(Object(fields["timestamp" := value]))) <==> value.Text?
    ensures WellFormed(checks, Encoded(Object(fields["ip_address" := value]))) <==>
              value.Text? && checks.isIP(value.text)
    ensures WellFormed(checks, Encoded(Object(fields["user_agent" := value]))) <==> value.Text?
    ensures WellFormed(checks, Encoded(Object(fields["referer" := value]))) <==> value.Text?
  {
  }

  /** Text that does not parse, and every value that is not an object, fails. */
  lemma OnlyObjectsPass(checks: Checks, raw: Raw)
    ensures WellFormed(checks, raw) ==> raw.Encoded? && raw.value.Object?
  {
  }

  /** The events of a batch that pass, in order. */
  function ValidOf(checks: Checks, batch: seq<Raw>): (valid: seq<Raw>)
    ensures |valid| <= |batch|
    ensures forall i :: 0 <= i < |valid| ==> WellFormed(checks, valid[i]) && valid[i] in batch
  {
    if batch == [] then []
    else
      var front := ValidOf(checks, batch[..|batch| - 1]);
      if WellFormed(checks, batch[|batch| - 1]) then front + [batch[|batch| - 1]] else front
  }

  /** The events of a batch that fail, in order. */
  function InvalidOf(checks: Checks, batch: seq<Raw>): (invalid: seq<Raw>)
    ensures forall i :: 0 <= i < |invalid| ==> !WellFormed(checks, invalid[i])
  {
    if batch == [] then []
    else
      var front := InvalidOf(checks, batch[..|batch| - 1]);
      if WellFormed(checks, batch[|batch| - 1]) then front else front + [batch[|batch| - 1]]
  }

  lemma {:induction false} ValidInvalidPartition(checks: Checks, batch: seq<Raw>)
    ensures multiset(ValidOf(checks, batch)) + multiset(InvalidOf(checks, batch)) == multiset(batch)
  {
    if batch != [] {
      ValidInvalidPartition(checks, batch[..|batch| - 1]);
      assert batch == batch[..|batch| - 1] + [batch[|batch| - 1]];
    }
  }

  lemma {:induction false} ValidOfConcat(checks: Checks, a: seq<Raw>, b: seq<Raw>)
    ensures ValidOf(checks, a + b) == ValidOf(checks, a) + ValidOf(checks, b)
    ensures InvalidOf(checks, a + b) == InvalidOf(checks, a) + InvalidOf(checks, b)
  {
    hide WellFormed;
    if b == [] {
      assert a + b == a;
    } else {
      ValidOfConcat(checks, a, b[..|b| - 1]);
      assert (a + b)[..|a + b| - 1] == a + b[..|b| - 1];
    }
  }

  /******* The multi-row INSERT *******/

  const COLUMNS := 5
  /** The columns in the order in which the statement names them. */
  const COLUMN_NAMES := ["url_id", "timestamp", "ip_address", "user_agent", "referer"]

  /** `a, b, c`. */
  function CommaList(names: seq<string>): string {
    if names == [] then ""
    else if |names| == 1 then names[0]
    else names[0] + ", " + CommaList(names[1..])
  }

  const INSERT_PREFIX := "INSERT INTO clicks (" + CommaList(COLUMN_NAMES) + ") VALUES "

  /** What the table holds of a row: each value under the column the statement names for it. */
  function Stored(row: seq<Json>): map<string, Json>
    requires |row| == COLUMNS
  {
    map i | 0 <= i < COLUMNS :: COLUMN_NAMES[i] := row[i]
  }

  /** The stored row of a well-formed event: its five columns in order. */
  function RowOf(checks: Checks, raw: Raw): (row: seq<Json>)
    requires WellFormed(checks, raw)
    ensures |row| == COLUMNS
  {
    var f := raw.value.fields;
    [f["url_id"], f["timestamp"], f["ip_address"],
     Text(WorkerSanitize(f["user_agent"].text)), Text(WorkerSanitize(f["referer"].text))]
  }

  function RowsOf(checks: Checks, events: seq<Raw>): (rows: seq<seq<Json>>)
    requires forall i :: 0 <= i < |events| ==> WellFormed(checks, events[i])
    ensures |rows| == |events|
    ensures forall i :: 0 <= i < |rows| ==> rows[i] == RowOf(checks, events[i])
  {
    seq(|events|, i requires 0 <= i < |events| => RowOf(checks, events[i]))
  }

  /** `sanitize` of the on-demand consumer throws on a truthy value that is not text, and
      reading a property of null throws. */
  predicate Bindable(raw: Raw) {
    raw.Encoded? && !raw.value.Null?
    && Cleanable(Field(raw.value, "user_agent")) && Cleanable(Field(raw.value, "referer"))
  }

  predicate Cleanable(field: Option<Json>) {
    field.None? || field.value.Text? || field.value.Null?
    || field.value == Boolean(false) || field.value == Numeric(0.0)
  }

  predicate AllBindable(batch: seq<Raw>) {
    forall i :: 0 <= i < |batch| ==> Bindable(batch[i])
  }

  /** Missing, null, text, false and zero can be cleaned; true, other numbers, lists and objects
      cannot. */
  lemma CleanableExactly(field: Option<Json>)
    ensures Cleanable(field) <==>
              match field
              case None => true
              case Some(Null) => true
              case Some(Text(_)) => true
              case Some(Boolean(b)) => !b
              case Some(Numeric(n)) => n == 0.0
              case Some(List(_)) => false
              case Some(Object(_)) => false
  {
  }

  /** An object can be bound whatever its other fields; null and unparseable text cannot. */
  lemma BindableExactly(fields: map<string, Json>, text: string)
    ensures Bindable(Encoded(Object(fields))) <==>
              (("user_agent" in fields ==> Cleanable(Some(fields["user_agent"])))
               && ("referer" in fields ==> Cleanable(Some(fields["referer"]))))
    ensures !Bindable(Encoded(Null)) && !Bindable(Garbage(text))
  {
  }

  /** A missing property becomes a null parameter. */
  function Column(value: Json, name: string): Json {
    if Field(value, name).Some? then Field(value, name).value else Null
  }

  function Cleaned(field: Option<Json>): Json {
    Text(if IsText(field) then ServiceSanitize(field.value.text) else "")
  }

  /** The row the on-demand consumer makes of a parsed event, checked or not. */
  function ServiceRow(raw: Raw): (row: seq<Json>)
    requires raw.Encoded?
    ensures |row| == COLUMNS
  {
    [Column(raw.value, "url_id"), Column(raw.value, "timestamp"), Column(raw.value, "ip_address"),
     Cleaned(Field(raw.value, "user_agent")), Cleaned(Field(raw.value, "referer"))]
  }

  function ServiceRows(batch: seq<Raw>): (rows: seq<seq<Json>>)
    requires AllBindable(batch)
    ensures |rows| == |batch| && forall i :: 0 <= i < |rows| ==> rows[i] == ServiceRow(batch[i])
  {
    seq(|batch|, i requires 0 <= i < |batch| => ServiceRow(batch[i]))
  }

  /** `flatMap`: the rows' values, one after another. */
  function Flatten(rows: seq<seq<Json>>): seq<Json> {
    if rows == [] then [] else Flatten(rows[..|rows| - 1]) + rows[|rows| - 1]
  }

  /** A separator, `$n`, and what follows. */
  function Reference(sep: string, n: nat, rest: string): string {
    sep + ("$" + Decimal.Text(n) + rest)
  }

  /** References to `ns`, each after a comma, and what follows. */
  function FurtherReferences(ns: seq<nat>, rest: string): string {
    if ns == [] then rest else Reference(", ", ns[0], FurtherReferences(ns[1..], rest))
  }

  function GroupTail(i: nat): seq<nat> {
    [i * 5 + 2, i * 5 + 3, i * 5 + 4, i * 5 + 5]
  }

  /** `($5i+1, $5i+2, $5i+3, $5i+4, $5i+5)` and what follows. */
  function Group(i: nat, rest: string): string {
    Reference("(", i * 5 + 1, FurtherReferences(GroupTail(i), ")" + rest))
  }

  /** The groups from number `from` to number `n`, joined with commas. */
  function Placeholders(from: nat, n: nat): string
    requires from <= n
    decreases n - from
  {
    if from == n then ""
    else Group(from, if from + 1 == n then "" else "," + Placeholders(from + 1, n))
  }

  function InsertQuery(n: nat): string {
    INSERT_PREFIX + Placeholders(0, n)
  }

  function DigitRun(s: string): (k: nat)
    ensures k <= |s| && Decimal.AllDigits(s[..k])
    ensures k < |s| ==> !Decimal.IsDigit(s[k])
  {
    if s != "" && Decimal.IsDigit(s[0]) then
      assert forall i :: 1 <= i <= 1 + DigitRun(s[1..]) && i <= |s| ==> s[1..i] == s[1..][..i - 1];
      assert forall i :: 1 <= i < |s| ==> s[i] == s[1..][i - 1];
      1 + DigitRun(s[1..])
    else 0
  }

  /** The parameter numbers a statement refers to, as the database reads them. */
  function References(s: string): seq<nat>
    decreases |s|
  {
    if s == "" then []
    else if s[0] == '$' then
      var k := DigitRun(s[1..]);
      [Decimal.Number(s[1..][..k])] + References(s[1..][k..])
    else References(s[1..])
  }

  /** How a server binds: row i takes the values its five references name. */
  function Bind(query: string, params: seq<Json>): Option<seq<seq<Json>>> {
    var refs := References(query);
    if |refs| % COLUMNS == 0 && forall k :: 0 <= k < |refs| ==> 1 <= refs[k] <= |params| then
      Some(seq(|refs| / COLUMNS, i requires 0 <= i < |refs| / COLUMNS =>
        seq(COLUMNS, j requires 0 <= j < COLUMNS => params[refs[i * COLUMNS + j] - 1])))
    else None
  }

  lemma {:induction false} DigitRunOf(d: string, t: string)
    requires Decimal.AllDigits(d) && (t == "" || !Decimal.IsDigit(t[0]))
    ensures DigitRun(d + t) == |d|
  {
    if d != "" {
      DigitRunOf(d[1..], t);
      assert (d + t)[1..] == d[1..] + t;
    } else {
      assert d + t == t;
    }
  }

  lemma ReferencesNumber(n: nat, t: string)
    requires t == "" || !Decimal.IsDigit(t[0])
    ensures References("$" + Decimal.Text(n) + t) == [n] + References(t)
  {
    hide Decimal.Text, Decimal.Number, DigitRun;
    var d := Decimal.Text(n);
    var s := "$" + d + t;
    Decimal.NumberOfText(n);
    DigitRunOf(d, t);
    assert s[1..] == d + t;
    assert (d + t)[..|d|] == d && (d + t)[|d|..] == t;
  }

  lemma {:induction false} ReferencesSkip(a: string, t: string)
    requires '$' !in a
    ensures References(a + t) == References(t)
  {
    if a == "" {
      assert a + t == t;
    } else {
      ReferencesSkip(a[1..], t);
      assert (a + t)[1..] == a[1..] + t;
    }
  }

  lemma ReferencesStep(sep: string, n: nat, t: string)
    requires '$' !in sep
    requires t == "" || !Decimal.IsDigit(t[0])
    ensures References(Reference(sep, n, t)) == [n] + References(t)
  {
    ReferencesNumber(n, t);
    ReferencesSkip(sep, "$" + Decimal.Text(n) + t);
  }

  lemma FurtherOpens(ns: seq<nat>, t: string)
    requires ns != []
    ensures FurtherReferences(ns, t) != "" && FurtherReferences(ns, t)[0] == ','
  {
    hide Decimal.Text;
  }

  lemma {:induction false} ReferencesFurther(ns: seq<nat>, t: string)
    requires t == "" || !Decimal.IsDigit(t[0])
    ensures References(FurtherReferences(ns, t)) == ns + References(t)
  {
    hide References, Reference;
    if ns == [] {
      assert ns + References(t) == References(t);
    } else {
      var rest := FurtherReferences(ns[1..], t);
      ReferencesFurther(ns[1..], t);
      if ns[1..] == [] {
        assert rest == t;
      } else {
        FurtherOpens(ns[1..], t);
      }
      ReferencesStep(", ", ns[0], rest);
      assert [ns[0]] + (ns[1..] + References(t)) == ns + References(t);
    }
  }

  lemma ReferencesList(n: nat, ns: seq<nat>, t: string)
    ensures References(Reference("(", n, FurtherReferences(ns, ")" + t))) == [n] + ns + References(t)
  {
    hide References, Reference, Decimal.Text;
    var rest := FurtherReferences(ns, ")" + t);
    ReferencesSkip(")", t);
    ReferencesFurther(ns, ")" + t);
    if ns != [] {
      FurtherOpens(ns, ")" + t);
    } else {
      assert rest == ")" + t;
    }
    ReferencesStep("(", n, rest);
    assert [n] + (ns + References(t)) == [n] + ns + References(t);
  }

  lemma ReferencesGroup(i: nat, t: string)
    ensures References(Group(i, t)) == Upto(5 * i, 5 * i + 5) + References(t)
  {
    hide References, Reference, FurtherReferences;
    ReferencesList(i * 5 + 1, GroupTail(i), t);
    assert [i * 5 + 1] + GroupTail(i) == Upto(5 * i, 5 * i + 5);
  }

  lemma UptoSplit(a: nat, b: nat, c: nat)
    requires a <= b <= c
    ensures Upto(a, b) + Upto(b, c) == Upto(a, c)
  {
  }

  function Upto(from: nat, to: nat): (r: seq<nat>)
    requires from <= to
    ensures |r| == to - from && forall k :: 0 <= k < |r| ==> r[k] == from + k + 1
  {
    seq(to - from, k requires 0 <= k => from + k + 1)
  }

  lemma ReferencesNone()
    ensures References("") == []
  {
  }

  lemma {:induction false} ReferencesPlaceholders(from: nat, n: nat)
    requires from <= n
    ensures References(Placeholders(from, n)) == Upto(5 * from, 5 * n)
    decreases n - from
  {
    ReferencesNone();
    hide References, Group;
    if from < n {
      var rest := if from + 1 == n then "" else "," + Placeholders(from + 1, n);
      ReferencesPlaceholders(from + 1, n);
      if from + 1 < n {
        ReferencesSkip(",", Placeholders(from + 1, n));
      }
      assert References(rest) == Upto(5 * from + 5, 5 * n);
      ReferencesGroup(from, rest);
      UptoSplit(5 * from, 5 * from + 5, 5 * n);
    }
  }

  lemma {:induction false} NoDollar(names: seq<string>)
    requires forall i :: 0 <= i < |names| ==> '$' !in names[i]
    ensures '$' !in CommaList(names)
  {
    if |names| > 1 {
      NoDollar(names[1..]);
    }
  }

  /** The statement for n events refers to parameters 1..5n, in order. */
  lemma QueryReferences(n: nat)
    ensures References(InsertQuery(n)) == Upto(0, 5 * n)
  {
    hide References, Placeholders;
    ReferencesPlaceholders(0, n);
    NoDollar(COLUMN_NAMES);
    assert '$' !in "INSERT INTO clicks (" && '$' !in ") VALUES ";
    ReferencesSkip(INSERT_PREFIX, Placeholders(0, n));
  }

  lemma {:induction false} CommaListExactly(names: seq<string>, name: string)
    ensures CommaList([name]) == name
    ensures names != [] ==> CommaList(names + [name]) == CommaList(names) + ", " + name
  {
    if |names| > 1 {
      CommaListExactly(names[1..], name);
      assert (names + [name])[1..] == names[1..] + [name];
    } else if |names| == 1 {
      assert (names + [name])[1..] == [name];
    }
  }

  lemma StoredExactly(row: seq<Json>)
    requires |row| == COLUMNS
    ensures Stored(row) == map["url_id" := row[0], "timestamp" := row[1], "ip_address" := row[2],
                               "user_agent" := row[3], "referer" := row[4]]
  {
    hide CommaList;
    assert COLUMN_NAMES[0] == "url_id" && COLUMN_NAMES[1] == "timestamp" && COLUMN_NAMES[2] == "ip_address";
    assert COLUMN_NAMES[3] == "user_agent" && COLUMN_NAMES[4] == "referer";
    assert |"url_id"| == 6 && |"timestamp"| == 9 && |"ip_address"| == 10 && |"referer"| == 7;
    assert "ip_address"[0] == 'i' && "user_agent"[0] == 'u';
  }

  lemma {:induction false} FlattenLayout(rows: seq<seq<Json>>)
    requires forall i :: 0 <= i < |rows| ==> |rows[i]| == COLUMNS
    ensures |Flatten(rows)| == 5 * |rows|
    ensures forall i, j :: 0 <= i < |rows| && 0 <= j < 5 ==> Flatten(rows)[5 * i + j] == rows[i][j]
  {
    if rows != [] {
      var n, params := |rows| - 1, Flatten(rows);
      FlattenLayout(rows[..n]);
      var front := Flatten(rows[..n]);
      forall i, j | 0 <= i <= n && 0 <= j < 5
        ensures params[5 * i + j] == rows[i][j]
      {
        if i < n {
          assert params[5 * i + j] == front[5 * i + j];
          assert rows[..n][i] == rows[i];
        } else {
          assert params[5 * i + j] == rows[n][j];
        }
      }
    }
  }

  /** Binding the statement rebuilds, in order, exactly the rows it was made from. */
  lemma BulkInsertBindsRows(rows: seq<seq<Json>>)
    requires forall i :: 0 <= i < |rows| ==> |rows[i]| == COLUMNS
    ensures Bind(InsertQuery(|rows|), Flatten(rows)) == Some(rows)
  {
    QueryReferences(|rows|);
    FlattenLayout(rows);
    BindLayout(InsertQuery(|rows|), Flatten(rows), |rows|, rows);
  }

  /** What a flush sends for a raw batch stores one row per well-formed event, in order,
      with that event's own five columns, and nothing else. */
  lemma BulkInsertRebuildsRows(checks: Checks, batch: seq<Raw>)
    ensures var valid := ValidOf(checks, batch);
            Bind(InsertQuery(|valid|), Flatten(RowsOf(checks, valid))) == Some(RowsOf(checks, valid))
            && forall i :: 0 <= i < |valid| ==> RowsOf(checks, valid)[i] == RowOf(checks, valid[i])
  {
    BulkInsertBindsRows(RowsOf(checks, ValidOf(checks, batch)));
  }

  lemma BindLayout(query: string, params: seq<Json>, n: nat, rows: seq<seq<Json>>)
    requires References(query) == Upto(0, 5 * n) && |params| == 5 * n && |rows| == n
    requires forall i :: 0 <= i < n ==> |rows[i]| == 5
    requires forall i, j :: 0 <= i < n && 0 <= j < 5 ==> params[5 * i + j] == rows[i][j]
    ensures Bind(query, params) == Some(rows)
  {
    var refs := References(query);
    assert |refs| % 5 == 0 && |refs| / 5 == n;
    forall i | 0 <= i < n
      ensures seq(5, j requires 0 <= j < 5 => params[refs[i * 5 + j] - 1]) == rows[i]
    {
      forall j | 0 <= j < 5
        ensures params[refs[i * 5 + j] - 1] == rows[i][j]
      {
        assert refs[i * 5 + j] == 5 * i + j + 1;
      }
    }
    assert Bind(query, params).value == rows;
  }

  /** A malformed event anywhere in a batch leaves the statement of the others as it was. */
  lemma MalformedEventsAffectNoRow(checks: Checks, before: seq<Raw>, bad: Raw, after: seq<Raw>)
    requires !WellFormed(checks, bad)
    ensures ValidOf(checks, before + [bad] + after) == ValidOf(checks, before + after)
  {
    ValidOfConcat(checks, before + [bad], after);
    ValidOfConcat(checks, before, after);
    assert (before + [bad])[..|before|] == before;
  }
}
