/**
  Search text: search_strategy.go prints a query as IMAP search text, and imap_adapter.go tokenizes and parses
  the text back into search criteria (search keys as in section 6.4.4 of RFC 3501).
 */
module SearchCriteria {
  import opened Wrappers
  import opened Text
  import opened Dates

  datatype Query = Query(
    keywords: seq<string>, from: string, to: string, subject: string, body: string,
    since: Option<Date>, before: Option<Date>, hasFlags: seq<string>)

  datatype HeaderField = HeaderField(key: string, value: string)

  /** imap.SearchCriteria; the only flag ever named is \Seen, so flags are counted. */
  datatype Criteria = Criteria(
    header: seq<HeaderField>, body: seq<string>, since: Option<Date>, before: Option<Date>,
    seen: nat, notSeen: nat)

  const NOTHING := Criteria([], [], None, None, 0, 0)

  // ---- What a query asks for ----

  function CountSeen(flags: seq<string>): nat {
    if flags == [] then 0 else CountSeen(flags[..|flags| - 1]) + (if flags[|flags| - 1] == "seen" then 1 else 0)
  }

  /** Only the first keyword is used. */
  function Keyword(q: Query): string {
    if |q.keywords| > 0 then q.keywords[0] else ""
  }

  function BodyText(q: Query, withBody: bool): string {
    if withBody then q.body else ""
  }

  /** The header field a query value asks for; an empty value asks for none. */
  function HeaderIf(key: string, value: string): seq<HeaderField> {
    if value != "" then [HeaderField(key, value)] else []
  }

  /**
    The criteria a query asks for: the first keyword as a subject, and the body text only under the strategy with
    BODY search.
   */
  function Asked(q: Query, withBody: bool): Criteria {
    Criteria(
      (if q.keywords == [] then [] else HeaderIf("Subject", q.keywords[0])) + HeaderIf("From", q.from)
        + HeaderIf("To", q.to) + HeaderIf("Subject", q.subject),
      if withBody && q.body != "" then [q.body] else [],
      q.since, q.before, 0, CountSeen(q.hasFlags))
  }

  // ---- Printing ----

  datatype Key = SUBJECT | BODY | FROM | TO | SINCE | BEFORE

  /** A key with a quoted value, a key with a bare word (a day), or UNSEEN. */
  datatype Clause = Field(key: Key, value: string) | Word(key: Key, word: string) | Unseen

  function KeyText(k: Key): string {
    match k
    case SUBJECT => "SUBJECT"
    case BODY => "BODY"
    case FROM => "FROM"
    case TO => "TO"
    case SINCE => "SINCE"
    case BEFORE => "BEFORE"
  }

  /** The clause builders; escapeSearchValue is the identity. */
  function ClauseText(c: Clause): string {
    match c
    case Field(k, v) => KeyText(k) + " \"" + v + "\""
    case Word(k, w) => KeyText(k) + " " + w
    case Unseen => "UNSEEN"
  }

  function FieldIf(k: Key, value: string): seq<Clause> {
    if value != "" then [Field(k, value)] else []
  }

  function DayIf(k: Key, date: Option<Date>): seq<Clause> {
    if date.Some? then [Word(k, FormatDate(date.value))] else []
  }

  function UnseenClauses(flags: seq<string>): seq<Clause> {
    if flags == [] then []
    else UnseenClauses(flags[..|flags| - 1]) + (if flags[|flags| - 1] == "seen" then [Unseen] else [])
  }

  function FieldClauses(q: Query, withBody: bool): seq<Clause> {
    FieldIf(SUBJECT, Keyword(q)) + FieldIf(BODY, BodyText(q, withBody)) +
    FieldIf(FROM, q.from) + FieldIf(TO, q.to) + FieldIf(SUBJECT, q.subject)
  }

  function DayClauses(q: Query): seq<Clause> {
    DayIf(SINCE, q.since) + DayIf(BEFORE, q.before)
  }

  function Clauses(q: Query, withBody: bool): seq<Clause> {
    FieldClauses(q, withBody) + DayClauses(q) + UnseenClauses(q.hasFlags)
  }

  function Texts(cs: seq<Clause>): (ts: seq<string>)
    ensures |ts| == |cs|
  {
    if cs == [] then [] else Texts(cs[..|cs| - 1]) + [ClauseText(cs[|cs| - 1])]
  }

  function QueryText(cs: seq<Clause>): string {
    if cs == [] then "ALL" else Join(Texts(cs), " ")
  }

  // ---- Tokenizing ----

  datatype Scanner = Scanner(tokens: seq<string>, current: string, inQuotes: bool)

  const START := Scanner([], "", false)

  function Scan(t: Scanner, c: char): Scanner {
    if c == '"' then t.(inQuotes := !t.inQuotes)
    else if c == ' ' then
      if t.inQuotes then t.(current := t.current + [c])
      else if t.current != "" then Scanner(t.tokens + [t.current], "", false)
      else t
    else t.(current := t.current + [c])
  }

  function ScanAll(t: Scanner, s: string): Scanner {
    if s == "" then t else Scan(ScanAll(t, s[..|s| - 1]), s[|s| - 1])
  }

  function Flush(t: Scanner): seq<string> {
    if t.current != "" then t.tokens + [t.current] else t.tokens
  }

  function Tokens(s: string): seq<string> {
    Flush(ScanAll(START, s))
  }

  /** No token is empty, however many spaces or pairs of quotes there are. */
  lemma {:induction false} TokensNonempty(s: string)
    ensures "" !in ScanAll(START, s).tokens && "" !in Tokens(s)
  {
    if s != "" { TokensNonempty(s[..|s| - 1]); }
  }

  /** A query that asks for nothing in particular is written as ALL. */
  lemma AllForNothing(q: Query, withBody: bool)
    ensures Clauses(q, withBody) == [] ==> QueryText(Clauses(q, withBody)) == "ALL"
    ensures Clauses(q, withBody) == [] ==> Asked(q, withBody) == NOTHING
  {
    UnseenCounts(q.hasFlags);
  }

  lemma {:induction false} UnseenCounts(flags: seq<string>)
    ensures |UnseenClauses(flags)| == CountSeen(flags)
  {
    if flags != [] { UnseenCounts(flags[..|flags| - 1]); }
  }

  /** imap_adapter.go, tokenizeCriteria. */
  method TokenizeCriteria(criteria: string) returns (tokens: seq<string>)
    ensures tokens == Tokens(criteria)
  {
    tokens := [];
    var current := "";
    var inQuotes := false;
    for i := 0 to |criteria|
      invariant Scanner(tokens, current, inQuotes) == ScanAll(START, criteria[..i])
    {
      var r := criteria[i];
      assert criteria[..i + 1][..i] == criteria[..i];
      if r == '"' {
        inQuotes := !inQuotes;
      } else if r == ' ' {
        if inQuotes {
          current := current + [r];
        } else if |current| > 0 {
          tokens := tokens + [current];
          current := "";
        }
      } else {
        current := current + [r];
      }
    }
    assert criteria[..|criteria|] == criteria;
    if |current| > 0 {
      tokens := tokens + [current];
    }
  }

  // ---- Parsing ----

  /** unicode.IsSpace. */
  predicate IsSpace(c: char) {
    c in {'\t', '\n', '\U{0b}', '\U{0c}', '\r', ' ', '\U{85}', '\U{a0}', '\U{1680}', '\U{2028}', '\U{2029}',
          '\U{202f}', '\U{205f}', '\U{3000}'} || '\U{2000}' <= c <= '\U{200a}'
  }

  /** strings.TrimSpace. */
  function TrimSpace(s: string): string {
    if s == "" then s
    else if IsSpace(s[0]) then TrimSpace(s[1..])
    else if IsSpace(s[|s| - 1]) then TrimSpace(s[..|s| - 1])
    else s
  }

  /**
    unicode.ToUpper on the characters whose upper case is an ASCII letter; two of them are not ASCII. The other
    characters never match a keyword, so they are left as they are.
   */
  function UpperLetter(c: char): char {
    if 'a' <= c <= 'z' then (c as int - 32) as char
    else if c == '\U{131}' then 'I'
    else if c == '\U{17f}' then 'S'
    else c
  }

  function Upper(s: string): (r: string)
    ensures |r| == |s|
    ensures forall i | 0 <= i < |s| :: r[i] == UpperLetter(s[i])
  {
    seq(|s|, i requires 0 <= i < |s| => UpperLetter(s[i]))
  }

  function Unquote(s: string): string {
    if |s| >= 2 && s[0] == '"' && s[|s| - 1] == '"' then s[1..|s| - 1] else s
  }

  /** The key a token names, if it names one that takes a value. */
  function KeyOf(token: string): Option<Key> {
    var u := Upper(token);
    if u == "FROM" then Some(FROM)
    else if u == "TO" then Some(TO)
    else if u == "SUBJECT" then Some(SUBJECT)
    else if u == "BODY" then Some(BODY)
    else if u == "SINCE" then Some(SINCE)
    else if u == "BEFORE" then Some(BEFORE)
    else None
  }

  /** What a key and its value add. A date that does not parse adds nothing. */
  function AddField(c: Criteria, k: Key, value: string): Criteria {
    match k
    case FROM => c.(header := c.header + [HeaderField("From", value)])
    case TO => c.(header := c.header + [HeaderField("To", value)])
    case SUBJECT => c.(header := c.header + [HeaderField("Subject", value)])
    case BODY => c.(body := c.body + [value])
    case SINCE => if ParseDate(value).Some? then c.(since := DayCriterion(ParseDate(value).value)) else c
    case BEFORE => if ParseDate(value).Some? then c.(before := DayCriterion(ParseDate(value).value)) else c
  }

  /** Go's zero time is a day like any other to a query, but as a criterion it stands for none. */
  const ZERO_DAY := DateParts(1, 1, 1)

  function DayCriterion(d: Date): Option<Date> {
    if d == ZERO_DAY then None else Some(d)
  }

  function AddFlag(c: Criteria, token: string): Criteria {
    var u := Upper(token);
    if u == "UNSEEN" then c.(notSeen := c.notSeen + 1)
    else if u == "SEEN" then c.(seen := c.seen + 1)
    else c
  }

  function ParseTokens(c: Criteria, parts: seq<string>): Criteria
    decreases |parts|
  {
    if parts == [] then c
    else
      match KeyOf(parts[0])
      case None => ParseTokens(AddFlag(c, parts[0]), parts[1..])
      case Some(k) =>
        if |parts| > 1 then ParseTokens(AddField(c, k, Unquote(parts[1])), parts[2..])
        else c
  }

  function Parsed(text: string): Criteria {
    var trimmed := TrimSpace(text);
    if trimmed == "ALL" then NOTHING else ParseTokens(NOTHING, Tokens(trimmed))
  }

  /** The white space that is trimmed, by code point. */
  lemma SpacesAre(c: char)
    ensures IsSpace(c) <==>
      c as int in {0x09, 0x0a, 0x0b, 0x0c, 0x0d, 0x20, 0x85, 0xa0, 0x1680, 0x2000, 0x2001, 0x2002, 0x2003, 0x2004,
                   0x2005, 0x2006, 0x2007, 0x2008, 0x2009, 0x200a, 0x2028, 0x2029, 0x202f, 0x205f, 0x3000}
  {
  }

  predicate AllSpaces(s: string) {
    forall i | 0 <= i < |s| :: IsSpace(s[i])
  }

  /** Trimming takes white space off both ends, and leaves none there. */
  lemma {:induction false} TrimmedExactly(s: string) returns (before: string, after: string)
    ensures s == before + TrimSpace(s) + after && AllSpaces(before) && AllSpaces(after)
    ensures TrimSpace(s) != "" ==> !IsSpace(TrimSpace(s)[0]) && !IsSpace(TrimSpace(s)[|TrimSpace(s)| - 1])
    decreases |s|
  {
    if s == "" {
      before, after := "", "";
    } else if IsSpace(s[0]) {
      before, after := TrimmedExactly(s[1..]);
      before := [s[0]] + before;
    } else if IsSpace(s[|s| - 1]) {
      before, after := TrimmedExactly(s[..|s| - 1]);
      after := after + [s[|s| - 1]];
    } else {
      before, after := "", "";
      assert s == "" + s + "";
    }
  }

  /** Two quotes around a value are taken off, and nothing else. */
  lemma UnquotedExactly(s: string, value: string)
    ensures Unquote("\"" + value + "\"") == value
    ensures s == "" || s[0] != '"' || s[|s| - 1] != '"' || |s| == 1 ==> Unquote(s) == s
  {
  }

  /** A letter of a key in either case, or one of the two other characters with that upper case. */
  predicate IsLetter(c: char, capital: char) {
    || c == capital
    || c as int == capital as int + 32
    || (capital == 'I' && c as int == 0x131)
    || (capital == 'S' && c as int == 0x17f)
  }

  predicate Spells(token: string, word: string) {
    |token| == |word| && forall i | 0 <= i < |token| :: IsLetter(token[i], word[i])
  }

  lemma UpperSpells(token: string, word: string)
    requires forall i | 0 <= i < |word| :: 'A' <= word[i] <= 'Z'
    ensures Upper(token) == word <==> Spells(token, word)
  {
    if |token| == |word| {
      forall i | 0 <= i < |token| ensures UpperLetter(token[i]) == word[i] <==> IsLetter(token[i], word[i]) {}
    }
  }

  /** A token is a key exactly when it spells the key, in any case. */
  lemma KeyExactly(token: string, k: Key)
    ensures KeyOf(token) == Some(k) <==> Spells(token, KeyText(k))
  {
    UpperSpells(token, "FROM");
    UpperSpells(token, "TO");
    UpperSpells(token, "SUBJECT");
    UpperSpells(token, "BODY");
    UpperSpells(token, "SINCE");
    UpperSpells(token, "BEFORE");
  }

  /** A token is a flag exactly when it spells it, in any case, and counts once. */
  lemma FlagExactly(c: Criteria, token: string)
    ensures AddFlag(c, token) ==
      if Spells(token, "UNSEEN") then c.(notSeen := c.notSeen + 1)
      else if Spells(token, "SEEN") then c.(seen := c.seen + 1)
      else c
  {
    UpperSpells(token, "UNSEEN");
    UpperSpells(token, "SEEN");
  }

  /** imap_adapter.go, parseSearchCriteria. */
  method ParseSearchCriteria(criteria: string) returns (c: Criteria)
    ensures c == Parsed(criteria)
  {
    var trimmed := TrimSpace(criteria);
    if trimmed == "ALL" {
      return NOTHING;
    }
    c := NOTHING;
    var parts := TokenizeCriteria(trimmed);
    var i := 0;
    while i < |parts|
      invariant 0 <= i <= |parts|
      invariant ParseTokens(c, parts[i..]) == ParseTokens(NOTHING, parts)
    {
      assert parts[i..][1..] == parts[i + 1..];
      match KeyOf(parts[i]) {
        case None =>
          c := AddFlag(c, parts[i]);
        case Some(k) =>
          if i + 1 < |parts| {
            assert parts[i..][2..] == parts[i + 2..];
            i := i + 1;
            c := AddField(c, k, Unquote(parts[i]));
          }
      }
      i := i + 1;
    }
  }

  /** Append a clause for a field unless its value is empty. */
  method AppendField(start: seq<string>, ghost before: seq<Clause>, k: Key, value: string) returns (parts: seq<string>)
    requires start == Texts(before)
    ensures parts == Texts(before + FieldIf(k, value))
  {
    parts := start;
    TextsAppend(before, FieldIf(k, value));
    if value != "" {
      parts := parts + [ClauseText(Field(k, value))];
    }
  }

  /** The clauses for the keyword and the text fields; `withBody` is BodySearchStrategy. */
  method BuildFieldParts(query: Query, withBody: bool) returns (parts: seq<string>)
    ensures parts == Texts(FieldClauses(query, withBody))
  {
    parts := [];
    ghost var s0 := FieldIf(SUBJECT, Keyword(query));
    if |query.keywords| > 0 {
      parts := AppendField(parts, [], SUBJECT, query.keywords[0]);
    }
    assert [] + s0 == s0;
    if withBody {
      parts := AppendField(parts, s0, BODY, query.body);
    }
    ghost var s1 := s0 + FieldIf(BODY, BodyText(query, withBody));
    assert parts == Texts(s1) by {
      if !withBody { assert s1 == s0; }
    }
    parts := AppendField(parts, s1, FROM, query.from);
    ghost var s2 := s1 + FieldIf(FROM, query.from);
    parts := AppendField(parts, s2, TO, query.to);
    parts := AppendField(parts, s2 + FieldIf(TO, query.to), SUBJECT, query.subject);
  }

  /** Append a clause for a date if there is one. */
  method AppendDay(start: seq<string>, ghost before: seq<Clause>, k: Key, date: Option<Date>)
    returns (parts: seq<string>)
    requires start == Texts(before)
    ensures parts == Texts(before + DayIf(k, date))
  {
    parts := start;
    TextsAppend(before, DayIf(k, date));
    if date.Some? {
      parts := parts + [ClauseText(Word(k, FormatDate(date.value)))];
    }
  }

  /** The parts joined by BuildSearchQuery. */
  method BuildParts(query: Query, withBody: bool) returns (parts: seq<string>)
    ensures parts == Texts(Clauses(query, withBody))
  {
    parts := BuildFieldParts(query, withBody);
    ghost var fields, since := FieldClauses(query, withBody), DayIf(SINCE, query.since);
    parts := AppendDay(parts, fields, SINCE, query.since);
    parts := AppendDay(parts, fields + since, BEFORE, query.before);
    assert fields + since + DayIf(BEFORE, query.before) == fields + DayClauses(query);
    parts := AppendFlagParts(query.hasFlags, fields + DayClauses(query), parts);
  }

  /** search_strategy.go, BuildSearchQuery of either strategy. */
  method BuildSearchQuery(query: Query, withBody: bool) returns (text: string)
    ensures text == QueryText(Clauses(query, withBody))
    ensures Parsed(text) == Asked(query, withBody) <==> QuoteFree(query, withBody) && DaysRecognized(query)
  {
    RoundTripExactly(query, withBody);
    var parts := BuildParts(query, withBody);
    if |parts| == 0 {
      text := "ALL";
    } else {
      text := JoinStrings(parts, " ");
    }
    assert text == QueryText(Clauses(query, withBody));
  }

  method AppendFlagParts(flags: seq<string>, ghost before: seq<Clause>, start: seq<string>) returns (parts: seq<string>)
    requires start == Texts(before)
    ensures parts == Texts(before + UnseenClauses(flags))
  {
    parts := start;
    assert before + [] == before;
    for i := 0 to |flags|
      invariant parts == Texts(before + UnseenClauses(flags[..i]))
    {
      FlagStep(before, flags, i);
      if flags[i] == "seen" {
        parts := parts + ["UNSEEN"];
      }
    }
    assert flags[..|flags|] == flags;
  }

  lemma FlagStep(before: seq<Clause>, flags: seq<string>, i: nat)
    requires i < |flags|
    ensures Texts(before + UnseenClauses(flags[..i + 1])) ==
      Texts(before + UnseenClauses(flags[..i])) + if flags[i] == "seen" then ["UNSEEN"] else []
  {
    assert flags[..i + 1][..i] == flags[..i];
    if flags[i] == "seen" {
      TextsAppend(before + UnseenClauses(flags[..i]), [Unseen]);
      assert before + UnseenClauses(flags[..i + 1]) == before + UnseenClauses(flags[..i]) + [Unseen];
    } else {
      assert UnseenClauses(flags[..i + 1]) == UnseenClauses(flags[..i]);
    }
  }

  lemma TextsAppend(cs: seq<Clause>, one: seq<Clause>)
    requires |one| <= 1
    ensures Texts(cs + one) == Texts(cs) + if one == [] then [] else [ClauseText(one[0])]
  {
    if one == [] {
      assert cs + one == cs;
    } else {
      assert (cs + one)[..|cs|] == cs;
    }
  }

  /** message_service.go, joinStrings. */
  method JoinStrings(parts: seq<string>, sep: string) returns (result: string)
    ensures result == Join(parts, sep)
  {
    if |parts| == 0 {
      return "";
    }
    result := parts[0];
    for i := 1 to |parts|
      invariant result == Join(parts[..i], sep)
    {
      assert parts[..i + 1] == parts[..i] + [parts[i]];
      JoinAppend(parts[..i], parts[i], sep);
      result := result + sep + parts[i];
    }
    assert parts[..|parts|] == parts;
  }

  // ---- Round trip ----

  predicate NoQuote(s: string) {
    forall i | 0 <= i < |s| :: s[i] != '"'
  }

  /** No value the strategy prints holds a double quote. */
  predicate QuoteFree(q: Query, withBody: bool) {
    NoQuote(Keyword(q)) && NoQuote(BodyText(q, withBody)) && NoQuote(q.from) && NoQuote(q.to) && NoQuote(q.subject)
  }

  /** A day that comes back as a criterion: its year has four digits, and it is not 1 January of year 1. */
  predicate Recognized(d: Date) {
    0 <= d.year < 10000 && d != ZERO_DAY
  }

  predicate DaysRecognized(q: Query) {
    (q.since.Some? ==> Recognized(q.since.value)) && (q.before.Some? ==> Recognized(q.before.value))
  }

  /** A clause whose text tokenizes back: a nonempty quote-free value, or a word. */
  predicate Printable(c: Clause) {
    match c
    case Field(k, v) => v != "" && NoQuote(v)
    case Word(k, w) => w != "" && Plain(w) && !IsSpace(w[|w| - 1])
    case Unseen => true
  }

  function ClauseTokens(c: Clause): seq<string> {
    match c
    case Field(k, v) => [KeyText(k), v]
    case Word(k, w) => [KeyText(k), w]
    case Unseen => ["UNSEEN"]
  }

  function AllTokens(cs: seq<Clause>): seq<string> {
    if cs == [] then [] else AllTokens(cs[..|cs| - 1]) + ClauseTokens(cs[|cs| - 1])
  }

  lemma {:induction false} ScanAppend(t: Scanner, a: string, b: string)
    ensures ScanAll(t, a + b) == ScanAll(ScanAll(t, a), b)
  {
    if b == "" {
      assert a + b == a;
    } else {
      assert (a + b)[..|a + b| - 1] == a + b[..|b| - 1];
      ScanAppend(t, a, b[..|b| - 1]);
    }
  }

  lemma {:induction false} ScanPlain(t: Scanner, s: string)
    requires Plain(s) || (t.inQuotes && NoQuote(s))
    ensures ScanAll(t, s) == t.(current := t.current + s)
  {
    if s != "" {
      ScanPlain(t, s[..|s| - 1]);
      assert t.current + s == t.current + s[..|s| - 1] + [s[|s| - 1]];
    }
  }

  lemma KeyPlain(k: Key)
    ensures Plain(KeyText(k)) && KeyText(k) != ""
  {
  }

  /** Scanning `KEY ` from between two tokens emits the key. */
  lemma ScanKey(ts: seq<string>, k: Key, rest: string)
    ensures ScanAll(Scanner(ts, "", false), KeyText(k) + ([' '] + rest)) ==
      ScanAll(Scanner(ts + [KeyText(k)], "", false), rest)
  {
    KeyPlain(k);
    var t := Scanner(ts, "", false);
    ScanPlain(t, KeyText(k));
    ScanAppend(t, KeyText(k), [' '] + rest);
    ScanAppend(Scanner(ts, KeyText(k), false), [' '], rest);
    assert "" + KeyText(k) == KeyText(k);
  }

  /** A quoted value becomes the open token, spaces included. */
  lemma ScanQuoted(ts: seq<string>, v: string)
    requires NoQuote(v)
    ensures ScanAll(Scanner(ts, "", false), ['"'] + (v + ['"'])) == Scanner(ts, v, false)
  {
    var t := Scanner(ts, "", false);
    ScanAppend(t, ['"'], v + ['"']);
    var t2 := t.(inQuotes := true);
    ScanAppend(t2, v, ['"']);
    ScanPlain(t2, v);
    assert "" + v == v;
  }

  /** Scanning a clause from between two tokens leaves its last token open and the others emitted. */
  lemma ScanClause(ts: seq<string>, c: Clause)
    requires Printable(c)
    ensures ScanAll(Scanner(ts, "", false), ClauseText(c)) == Open(ts + ClauseTokens(c))
  {
    match c
    case Field(k, v) => ScanField(ts, k, v);
    case Word(k, w) => ScanWord(ts, k, w);
    case Unseen =>
      ScanPlain(Scanner(ts, "", false), "UNSEEN");
      OpenLast(ts, "UNSEEN");
  }

  lemma ScanField(ts: seq<string>, k: Key, v: string)
    requires NoQuote(v)
    ensures ScanAll(Scanner(ts, "", false), ClauseText(Field(k, v))) == Open(ts + [KeyText(k), v])
  {
    assert ClauseText(Field(k, v)) == KeyText(k) + ([' '] + (['"'] + (v + ['"'])));
    ScanKey(ts, k, ['"'] + (v + ['"']));
    ScanQuoted(ts + [KeyText(k)], v);
    OpenLast(ts + [KeyText(k)], v);
    assert ts + [KeyText(k)] + [v] == ts + [KeyText(k), v];
  }

  lemma ScanWord(ts: seq<string>, k: Key, text: string)
    requires Plain(text)
    ensures ScanAll(Scanner(ts, "", false), KeyText(k) + " " + text) == Open(ts + [KeyText(k), text])
  {
    assert KeyText(k) + " " + text == KeyText(k) + ([' '] + text);
    ScanKey(ts, k, text);
    ScanPlain(Scanner(ts + [KeyText(k)], "", false), text);
    assert "" + text == text;
    OpenLast(ts + [KeyText(k)], text);
    assert ts + [KeyText(k)] + [text] == ts + [KeyText(k), text];
  }

  /** The scanner when all these tokens have been read and the last one is not emitted yet. */
  function Open(all: seq<string>): Scanner
    requires all != []
  {
    Scanner(all[..|all| - 1], all[|all| - 1], false)
  }

  lemma EmitOpen(all: seq<string>)
    requires all != [] && all[|all| - 1] != ""
    ensures Scan(Open(all), ' ') == Scanner(all, "", false)
    ensures Flush(Open(all)) == all
  {
    assert all[..|all| - 1] + [all[|all| - 1]] == all;
  }

  lemma TokensWhenOpen(text: string, all: seq<string>)
    requires all != [] && all[|all| - 1] != "" && ScanAll(START, text) == Open(all)
    ensures Tokens(text) == all
  {
    EmitOpen(all);
  }

  lemma OpenLast(ts: seq<string>, last: string)
    ensures Open(ts + [last]) == Scanner(ts, last, false)
  {
  }

  lemma ClauseTokensNonempty(c: Clause)
    requires Printable(c)
    ensures ClauseTokens(c) != [] && ClauseTokens(c)[|ClauseTokens(c)| - 1] != ""
  {
  }

  /** The text of printable clauses tokenizes to their tokens, even when a value is a keyword or only spaces. */
  lemma {:induction false} ScanQuery(cs: seq<Clause>)
    requires cs != [] && forall i | 0 <= i < |cs| :: Printable(cs[i])
    ensures var all := AllTokens(cs);
      all != [] && all[|all| - 1] != "" && ScanAll(START, Join(Texts(cs), " ")) == Open(all)
  {
    var front, last := cs[..|cs| - 1], cs[|cs| - 1];
    ClauseTokensNonempty(last);
    if front == [] {
      ScanClause([], last);
      assert Texts(cs) == [ClauseText(last)];
      assert AllTokens(cs) == [] + ClauseTokens(last);
    } else {
      ScanQuery(front);
      JoinAppend(Texts(front), ClauseText(last), " ");
      ScanNextClause(AllTokens(front), Join(Texts(front), " "), last);
    }
  }

  lemma ScanNextClause(before: seq<string>, text: string, c: Clause)
    requires Printable(c) && before != [] && before[|before| - 1] != "" && ScanAll(START, text) == Open(before)
    ensures ScanAll(START, text + " " + ClauseText(c)) == Open(before + ClauseTokens(c))
  {
    assert text + " " + ClauseText(c) == text + ([' '] + ClauseText(c));
    ScanAppend(START, text, [' '] + ClauseText(c));
    ScanAppend(Open(before), [' '], ClauseText(c));
    EmitOpen(before);
    ScanClause(before, c);
  }

  function AddClause(c: Criteria, cl: Clause): Criteria {
    match cl
    case Field(k, v) => AddField(c, k, v)
    case Word(k, w) => AddField(c, k, w)
    case Unseen => c.(notSeen := c.notSeen + 1)
  }

  function AddAll(c: Criteria, cs: seq<Clause>): Criteria {
    if cs == [] then c else AddClause(AddAll(c, cs[..|cs| - 1]), cs[|cs| - 1])
  }

  lemma UpperOfCapitals(s: string)
    requires forall i | 0 <= i < |s| :: 'A' <= s[i] <= 'Z'
    ensures Upper(s) == s
  {
  }

  lemma KeyOfKeyText(k: Key)
    ensures KeyOf(KeyText(k)) == Some(k)
  {
    UpperOfCapitals(KeyText(k));
  }

  lemma UnseenIsFlag(c: Criteria)
    ensures KeyOf("UNSEEN") == None && AddFlag(c, "UNSEEN") == c.(notSeen := c.notSeen + 1)
  {
    UpperOfCapitals("UNSEEN");
  }

  lemma ParseClause(c: Criteria, cl: Clause, rest: seq<string>)
    requires Printable(cl)
    ensures ParseTokens(c, ClauseTokens(cl) + rest) == ParseTokens(AddClause(c, cl), rest)
  {
    var parts := ClauseTokens(cl) + rest;
    match cl
    case Field(k, v) =>
      KeyOfKeyText(k);
      assert parts[2..] == rest;
    case Word(k, w) =>
      KeyOfKeyText(k);
      assert parts[2..] == rest;
    case Unseen =>
      UnseenIsFlag(c);
      assert parts[1..] == rest;
  }

  lemma {:induction false} ParseClauses(c: Criteria, cs: seq<Clause>, rest: seq<string>)
    requires forall i | 0 <= i < |cs| :: Printable(cs[i])
    ensures ParseTokens(c, AllTokens(cs) + rest) == ParseTokens(AddAll(c, cs), rest)
  {
    if cs == [] {
      assert AllTokens(cs) + rest == rest;
    } else {
      var front, last := cs[..|cs| - 1], cs[|cs| - 1];
      assert AllTokens(cs) + rest == AllTokens(front) + (ClauseTokens(last) + rest);
      ParseClauses(c, front, ClauseTokens(last) + rest);
      ParseClause(AddAll(c, front), last, rest);
    }
  }

  lemma {:induction false} QueryEnds(cs: seq<Clause>)
    requires cs != [] && forall i | 0 <= i < |cs| :: Printable(cs[i])
    ensures var s := Join(Texts(cs), " "); s != "" && 'B' <= s[0] <= 'U' && !IsSpace(s[|s| - 1])
  {
    var front, last := cs[..|cs| - 1], cs[|cs| - 1];
    if front == [] {
      assert Texts(cs) == [ClauseText(last)];
    } else {
      QueryEnds(front);
      JoinAppend(Texts(front), ClauseText(last), " ");
    }
  }

  lemma AllIsAll()
    ensures Parsed("ALL") == NOTHING
  {
    var s := "ALL";
    assert s[0] == 'A' && s[2] == 'L';
    assert !IsSpace('A') && !IsSpace('L');
  }

  lemma QueryTokens(cs: seq<Clause>)
    requires cs != [] && forall i | 0 <= i < |cs| :: Printable(cs[i])
    ensures Tokens(QueryText(cs)) == AllTokens(cs)
    ensures TrimSpace(QueryText(cs)) == QueryText(cs) && QueryText(cs) != "ALL"
  {
    QueryEnds(cs);
    ScanQuery(cs);
    TokensWhenOpen(Join(Texts(cs), " "), AllTokens(cs));
    NotTrimmed(QueryText(cs));
  }

  lemma ParseAll(cs: seq<Clause>)
    requires forall i | 0 <= i < |cs| :: Printable(cs[i])
    ensures ParseTokens(NOTHING, AllTokens(cs)) == AddAll(NOTHING, cs)
  {
    ParseClauses(NOTHING, cs, []);
    assert AllTokens(cs) + [] == AllTokens(cs);
  }

  lemma PrintedReadsBack(cs: seq<Clause>)
    requires forall i | 0 <= i < |cs| :: Printable(cs[i])
    ensures Parsed(QueryText(cs)) == AddAll(NOTHING, cs)
  {
    if cs == [] {
      AllIsAll();
    } else {
      QueryTokens(cs);
      ParseAll(cs);
    }
  }

  lemma NotTrimmed(text: string)
    requires text != "" && 'B' <= text[0] <= 'U' && !IsSpace(text[|text| - 1])
    ensures TrimSpace(text) == text && text != "ALL"
  {
    assert "ALL"[0] == 'A';
  }

  // ---- The clauses mean what the query asks ----

  lemma {:induction false} AddAllAppend(c: Criteria, a: seq<Clause>, b: seq<Clause>)
    ensures AddAll(c, a + b) == AddAll(AddAll(c, a), b)
  {
    if b == [] {
      assert a + b == a;
    } else {
      assert (a + b)[..|a + b| - 1] == a + b[..|b| - 1];
      AddAllAppend(c, a, b[..|b| - 1]);
    }
  }

  lemma {:induction false} AddUnseen(c: Criteria, flags: seq<string>)
    ensures AddAll(c, UnseenClauses(flags)) == c.(notSeen := c.notSeen + CountSeen(flags))
  {
    if flags != [] {
      var front := flags[..|flags| - 1];
      AddUnseen(c, front);
      if flags[|flags| - 1] == "seen" {
        AddAllAppend(c, UnseenClauses(front), [Unseen]);
      } else {
        assert UnseenClauses(flags) == UnseenClauses(front);
      }
    }
  }

  /** What an optional field adds. */
  function WithField(c: Criteria, k: Key, value: string): Criteria {
    if value != "" then AddField(c, k, value) else c
  }

  lemma AddFieldIf(before: seq<Clause>, c: Criteria, k: Key, value: string)
    requires AddAll(NOTHING, before) == c
    ensures AddAll(NOTHING, before + FieldIf(k, value)) == WithField(c, k, value)
  {
    AddAllAppend(NOTHING, before, FieldIf(k, value));
  }

  lemma AddFields(q: Query, withBody: bool)
    ensures AddAll(NOTHING, FieldClauses(q, withBody)) ==
      WithField(WithField(WithField(WithField(WithField(NOTHING, SUBJECT, Keyword(q)), BODY, BodyText(q, withBody)),
        FROM, q.from), TO, q.to), SUBJECT, q.subject)
  {
    var c0 := WithField(NOTHING, SUBJECT, Keyword(q));
    var s0 := FieldIf(SUBJECT, Keyword(q));
    assert [] + s0 == s0;
    AddFieldIf([], NOTHING, SUBJECT, Keyword(q));
    AddFieldIf(s0, c0, BODY, BodyText(q, withBody));
    var c1, s1 := WithField(c0, BODY, BodyText(q, withBody)), s0 + FieldIf(BODY, BodyText(q, withBody));
    AddFieldIf(s1, c1, FROM, q.from);
    var c2, s2 := WithField(c1, FROM, q.from), s1 + FieldIf(FROM, q.from);
    AddFieldIf(s2, c2, TO, q.to);
    AddFieldIf(s2 + FieldIf(TO, q.to), WithField(c2, TO, q.to), SUBJECT, q.subject);
  }

  lemma WithHeader(c: Criteria, k: Key, value: string, name: string)
    requires (k == SUBJECT && name == "Subject") || (k == FROM && name == "From") || (k == TO && name == "To")
    ensures WithField(c, k, value) == c.(header := c.header + HeaderIf(name, value))
  {
    if value == "" { assert c.header + HeaderIf(name, value) == c.header; }
  }

  lemma FieldsMeanAsked(q: Query, withBody: bool)
    ensures AddAll(NOTHING, FieldClauses(q, withBody)) ==
      Asked(q, withBody).(since := None, before := None, notSeen := 0)
  {
    AddFields(q, withBody);
    var c0 := WithField(NOTHING, SUBJECT, Keyword(q));
    var c1 := WithField(c0, BODY, BodyText(q, withBody));
    var c2 := WithField(c1, FROM, q.from);
    WithHeader(NOTHING, SUBJECT, Keyword(q), "Subject");
    assert NOTHING.header + HeaderIf("Subject", Keyword(q)) == HeaderIf("Subject", Keyword(q));
    WithHeader(c1, FROM, q.from, "From");
    WithHeader(c2, TO, q.to, "To");
    WithHeader(WithField(c2, TO, q.to), SUBJECT, q.subject, "Subject");
  }

  lemma AddDayIf(c: Criteria, k: Key, date: Option<Date>)
    requires k == SINCE || k == BEFORE
    requires date.Some? ==> Recognized(date.value)
    ensures AddAll(c, DayIf(k, date)) ==
      if date.None? then c else if k == SINCE then c.(since := date) else c.(before := date)
  {
    if date.Some? {
      DateRoundTrip(date.value);
    }
  }

  lemma AddDays(q: Query, c: Criteria)
    requires DaysRecognized(q) && c.since == None && c.before == None
    ensures AddAll(c, DayClauses(q)) == c.(since := q.since, before := q.before)
  {
    AddDayIf(c, SINCE, q.since);
    AddDayIf(AddAll(c, DayIf(SINCE, q.since)), BEFORE, q.before);
    AddAllAppend(c, DayIf(SINCE, q.since), DayIf(BEFORE, q.before));
  }

  lemma ClausesMeanAsked(q: Query, withBody: bool)
    requires DaysRecognized(q)
    ensures AddAll(NOTHING, Clauses(q, withBody)) == Asked(q, withBody)
  {
    var fields, days, flags := FieldClauses(q, withBody), DayClauses(q), UnseenClauses(q.hasFlags);
    AddAllAppend(NOTHING, fields + days, flags);
    AddAllAppend(NOTHING, fields, days);
    FieldsMeanAsked(q, withBody);
    AddDays(q, AddAll(NOTHING, fields));
    AddUnseen(AddAll(NOTHING, fields + days), q.hasFlags);
  }

  ghost predicate AllPrintable(cs: seq<Clause>) {
    forall i | 0 <= i < |cs| :: Printable(cs[i])
  }

  lemma {:induction false} UnseenPrintable(flags: seq<string>)
    ensures AllPrintable(UnseenClauses(flags))
  {
    if flags != [] { UnseenPrintable(flags[..|flags| - 1]); }
  }

  lemma DayPrintable(k: Key, date: Option<Date>)
    ensures AllPrintable(DayIf(k, date))
  {
    if date.Some? { DatePlain(date.value); }
  }

  lemma ClausesPrintable(q: Query, withBody: bool)
    requires QuoteFree(q, withBody)
    ensures AllPrintable(Clauses(q, withBody))
  {
    DayPrintable(SINCE, q.since);
    DayPrintable(BEFORE, q.before);
    UnseenPrintable(q.hasFlags);
  }

  // ---- What parsing can return ----

  /** No quote survives tokenizing, and every date read has a four-digit year and is not the zero day. */
  predicate Readable(c: Criteria) {
    && (forall i | 0 <= i < |c.header| :: NoQuote(c.header[i].value))
    && (forall i | 0 <= i < |c.body| :: NoQuote(c.body[i]))
    && (c.since.Some? ==> Recognized(c.since.value))
    && (c.before.Some? ==> Recognized(c.before.value))
  }

  lemma {:induction false} ScanDropsQuotes(s: string)
    ensures NoQuote(ScanAll(START, s).current)
    ensures forall i | 0 <= i < |ScanAll(START, s).tokens| :: NoQuote(ScanAll(START, s).tokens[i])
  {
    if s != "" { ScanDropsQuotes(s[..|s| - 1]); }
  }

  lemma {:induction false} ParseReadable(c: Criteria, parts: seq<string>)
    requires Readable(c) && forall i | 0 <= i < |parts| :: NoQuote(parts[i])
    ensures Readable(ParseTokens(c, parts))
    decreases |parts|
  {
    if parts != [] {
      match KeyOf(parts[0])
      case None => ParseReadable(AddFlag(c, parts[0]), parts[1..]);
      case Some(k) =>
        if |parts| > 1 {
          assert NoQuote(parts[1]);
          assert Readable(AddField(c, k, Unquote(parts[1])));
          ParseReadable(AddField(c, k, Unquote(parts[1])), parts[2..]);
        }
    }
  }

  lemma ParsedReadable(text: string)
    ensures Readable(Parsed(text))
  {
    ScanDropsQuotes(TrimSpace(text));
    ParseReadable(NOTHING, Tokens(TrimSpace(text)));
  }

  lemma AskedReadable(q: Query, withBody: bool)
    requires Readable(Asked(q, withBody))
    ensures QuoteFree(q, withBody) && DaysRecognized(q)
  {
    var h := Asked(q, withBody).header;
    forall f | f in h ensures NoQuote(f.value) {}
    if Keyword(q) != "" { assert HeaderField("Subject", Keyword(q)) in h; }
    if q.from != "" { assert HeaderField("From", q.from) in h; }
    if q.to != "" { assert HeaderField("To", q.to) in h; }
    if q.subject != "" { assert HeaderField("Subject", q.subject) in h; }
    if BodyText(q, withBody) != "" { assert Asked(q, withBody).body[0] == BodyText(q, withBody); }
  }

  /**
    Parsing what BuildSearchQuery prints gives exactly the criteria the query asks for, if and only if the
    values used are free of double quotes, and the dates have four-digit years and are not the zero day.
   */
  lemma RoundTripExactly(q: Query, withBody: bool)
    ensures Parsed(QueryText(Clauses(q, withBody))) == Asked(q, withBody) <==>
      QuoteFree(q, withBody) && DaysRecognized(q)
  {
    if QuoteFree(q, withBody) && DaysRecognized(q) {
      ClausesPrintable(q, withBody);
      PrintedReadsBack(Clauses(q, withBody));
      ClausesMeanAsked(q, withBody);
    }
    ParsedReadable(QueryText(Clauses(q, withBody)));
    if Parsed(QueryText(Clauses(q, withBody))) == Asked(q, withBody) {
      AskedReadable(q, withBody);
    }
  }
}
