/**
 The keyword/value connection-string scanner and printer of `coord/backup.py`.

 The scanner is a loop over an index; `Parse` is its value-level specification.
 `Setting` is an independent description of the legal spellings of a parameter
 (PostgreSQL 16, section 34.1.1.1), and `ParseReadsEverySpelling` says that the scanner
 recovers the meaning of every one of them.  The printer picks one spelling per value.
 */
module Dsn {
  import opened Common
  import opened Text

  datatype Param = Param(key: string, value: string)

  /** A Python dictionary: insertion-ordered, one entry per key. */
  type Params = seq<Param>

  ghost predicate DistinctKeys(d: Params) {
    forall i, j :: 0 <= i < j < |d| ==> d[i].key != d[j].key
  }

  function Put(d: Params, key: string, value: string): Params {
    if d == [] then [Param(key, value)]
    else if d[0].key == key then [Param(key, value)] + d[1..]
    else [d[0]] + Put(d[1..], key, value)
  }

  function Remove(d: Params, key: string): Params {
    if d == [] then [] else if d[0].key == key then d[1..] else [d[0]] + Remove(d[1..], key)
  }

  function Get(d: Params, key: string): Option<string> {
    if d == [] then None else if d[0].key == key then Some(d[0].value) else Get(d[1..], key)
  }

  // ── the scanner, on values ─────────────────────────────────────────────────

  predicate EndsKey(c: char) {
    c == '=' || IsSpace(c)
  }

  /** Length of the key at the front of `s`. */
  function KeyLength(s: string): (n: nat)
    ensures n <= |s|
  {
    if s == [] || EndsKey(s[0]) then 0 else 1 + KeyLength(s[1..])
  }

  datatype Scanned = Scanned(value: string, rest: string)

  /** The part of a quoted value after its opening quote. */
  function ScanQuoted(s: string): (r: Scanned)
    ensures |r.rest| <= |s|
  {
    if s == [] then Scanned([], [])
    else if s[0] == '\\' && |s| > 1 then
      var r := ScanQuoted(s[2..]);
      Scanned([s[1]] + r.value, r.rest)
    else if s[0] == '\'' then Scanned([], s[1..])
    else
      var r := ScanQuoted(s[1..]);
      Scanned([s[0]] + r.value, r.rest)
  }

  function ScanRaw(s: string): (r: Scanned)
    ensures |r.rest| <= |s|
  {
    if s == [] || IsSpace(s[0]) then Scanned([], s)
    else
      var r := ScanRaw(s[1..]);
      Scanned([s[0]] + r.value, r.rest)
  }

  function ScanValue(s: string): (r: Scanned)
    ensures |r.rest| <= |s|
  {
    if s != [] && s[0] == '\'' then ScanQuoted(s[1..]) else ScanRaw(s)
  }

  datatype ScannedParam = ScannedParam(param: Param, rest: string)

  /** The first `key=value` of `s`, if it has one. */
  function ScanParam(s: string): (r: Option<ScannedParam>)
    ensures r.Some? ==> |r.value.rest| < |s|
  {
    var word := TrimLeft(s);
    var key := word[..KeyLength(word)];
    var sign := TrimLeft(word[KeyLength(word)..]);
    if sign == [] || sign[0] != '=' then None
    else
      var r := ScanValue(TrimLeft(sign[1..]));
      Some(ScannedParam(Param(key, r.value), r.rest))
  }

  /** Every `key=value` in scanning order; the scan stops at a key without `=`. */
  function Scan(s: string): seq<Param>
    decreases |s|
  {
    match ScanParam(s)
    case None => []
    case Some(r) => [r.param] + Scan(r.rest)
  }

  /** Later assignments win in place; entries without a key are ignored. */
  function Store(d: Params, found: seq<Param>): Params
    decreases |found|
  {
    if found == [] then d
    else Store(if found[0].key == [] then d else Put(d, found[0].key, found[0].value), found[1..])
  }

  function Parse(dsn: string): Params {
    Store([], Scan(dsn))
  }

  // ── the scanner, as the source runs it ─────────────────────────────────────

  method SkipSpaces(dsn: string, from: nat) returns (i: nat)
    requires from <= |dsn|
    ensures from <= i <= |dsn|
    ensures dsn[i..] == TrimLeft(dsn[from..])
  {
    i := from;
    while i < |dsn| && IsSpace(dsn[i])
      invariant from <= i <= |dsn|
      invariant TrimLeft(dsn[i..]) == TrimLeft(dsn[from..])
    {
      assert dsn[i..][1..] == dsn[i + 1..];
      i := i + 1;
    }
  }

  method ReadKey(dsn: string, from: nat) returns (i: nat)
    requires from <= |dsn|
    ensures i == from + KeyLength(dsn[from..])
  {
    i := from;
    while i < |dsn| && dsn[i] != '=' && !IsSpace(dsn[i])
      invariant from <= i <= |dsn|
      invariant i + KeyLength(dsn[i..]) == from + KeyLength(dsn[from..])
    {
      assert dsn[i..][1..] == dsn[i + 1..];
      i := i + 1;
    }
  }

  function Prepend(value: string, r: Scanned): Scanned {
    Scanned(value + r.value, r.rest)
  }

  /** One character, or one escape, inside quotes. */
  lemma QuotedTurn(dsn: string, i: nat, value: string)
    requires i < |dsn|
    ensures Prepend(value, ScanQuoted(dsn[i..]))
         == if dsn[i] == '\\' && i + 1 < |dsn| then Prepend(value + [dsn[i + 1]], ScanQuoted(dsn[i + 2..]))
            else if dsn[i] == '\'' then Scanned(value, dsn[i + 1..])
            else Prepend(value + [dsn[i]], ScanQuoted(dsn[i + 1..]))
  {
    var s := dsn[i..];
    assert s[1..] == dsn[i + 1..];
    if dsn[i] == '\\' && i + 1 < |dsn| {
      assert s[2..] == dsn[i + 2..] && s[1] == dsn[i + 1];
    }
  }

  method ReadQuoted(dsn: string, from: nat) returns (value: string, i: nat)
    requires from <= |dsn|
    ensures i <= |dsn| && from <= i
    ensures Scanned(value, dsn[i..]) == ScanQuoted(dsn[from..])
  {
    value, i := [], from;
    assert [] + ScanQuoted(dsn[from..]).value == ScanQuoted(dsn[from..]).value;
    while i < |dsn|
      invariant from <= i <= |dsn|
      invariant ScanQuoted(dsn[from..]) == Prepend(value, ScanQuoted(dsn[i..]))
      decreases |dsn| - i
    {
      QuotedTurn(dsn, i, value);
      var c := dsn[i];
      if c == '\\' && i + 1 < |dsn| {
        value, i := value + [dsn[i + 1]], i + 2;
      } else if c == '\'' {
        i := i + 1;
        return;
      } else {
        value, i := value + [c], i + 1;
      }
    }
    QuotedEnd(dsn, i, value);
  }

  lemma QuotedEnd(dsn: string, i: nat, value: string)
    requires i == |dsn|
    ensures Prepend(value, ScanQuoted(dsn[i..])) == Scanned(value, dsn[i..])
  {
    assert dsn[i..] == [] && value + [] == value;
  }

  lemma RawTurn(dsn: string, i: nat, value: string)
    requires i < |dsn| && !IsSpace(dsn[i])
    ensures Prepend(value, ScanRaw(dsn[i..])) == Prepend(value + [dsn[i]], ScanRaw(dsn[i + 1..]))
  {
    assert dsn[i..][1..] == dsn[i + 1..];
  }

  method ReadRaw(dsn: string, from: nat) returns (value: string, i: nat)
    requires from <= |dsn|
    ensures from <= i <= |dsn|
    ensures Scanned(value, dsn[i..]) == ScanRaw(dsn[from..])
  {
    value, i := [], from;
    while i < |dsn| && !IsSpace(dsn[i])
      invariant from <= i <= |dsn|
      invariant ScanRaw(dsn[from..]) == Prepend(value, ScanRaw(dsn[i..]))
    {
      RawTurn(dsn, i, value);
      value, i := value + [dsn[i]], i + 1;
    }
  }

  method ReadValue(dsn: string, from: nat) returns (value: string, i: nat)
    requires from <= |dsn|
    ensures from <= i <= |dsn|
    ensures Scanned(value, dsn[i..]) == ScanValue(dsn[from..])
  {
    if from < |dsn| && dsn[from] == '\'' {
      assert dsn[from..][1..] == dsn[from + 1..];
      value, i := ReadQuoted(dsn, from + 1);
    } else {
      value, i := ReadRaw(dsn, from);
    }
  }

  /** A key, and where the text behind its white space starts. */
  method ReadWord(dsn: string, start: nat) returns (key: string, i: nat)
    requires start <= |dsn|
    ensures start <= i <= |dsn|
    ensures var word := TrimLeft(dsn[start..]);
            key == word[..KeyLength(word)] && dsn[i..] == TrimLeft(word[KeyLength(word)..])
  {
    var keyStart := SkipSpaces(dsn, start);
    i := ReadKey(dsn, keyStart);
    key := dsn[keyStart..i];
    ghost var word := dsn[keyStart..];
    assert key == word[..KeyLength(word)];
    assert dsn[i..] == word[KeyLength(word)..];
    i := SkipSpaces(dsn, i);
  }

  /** One turn of the scanner's outer loop: from `start` to behind the next parameter. */
  method ReadParam(dsn: string, start: nat) returns (found: Option<Param>, i: nat)
    requires start <= |dsn|
    ensures i <= |dsn|
    ensures match found
            case None => ScanParam(dsn[start..]) == None
            case Some(p) => ScanParam(dsn[start..]) == Some(ScannedParam(p, dsn[i..]))
    ensures found.Some? ==> start < i
  {
    var key;
    key, i := ReadWord(dsn, start);
    if i >= |dsn| || dsn[i] != '=' {
      return None, i;
    }
    assert dsn[i..][1..] == dsn[i + 1..];
    i := SkipSpaces(dsn, i + 1);
    var value;
    value, i := ReadValue(dsn, i);
    found := Some(Param(key, value));
  }

  /** `_parse_keyword_value_dsn`; total, so the scan terminates on every input. */
  method ParseKeywordValueDsn(dsn: string) returns (params: Params)
    ensures params == Parse(dsn)
  {
    params := [];
    var i := 0;
    assert dsn[0..] == dsn;
    while i < |dsn|
      invariant i <= |dsn|
      invariant Store(params, Scan(dsn[i..])) == Parse(dsn)
      decreases |dsn| - i
    {
      var found, next := ReadParam(dsn, i);
      if found == None {
        return;
      }
      var p := found.value;
      assert Scan(dsn[i..]) == [p] + Scan(dsn[next..]);
      if p.key != [] {
        params := Put(params, p.key, p.value);
      }
      i := next;
    }
    assert dsn[i..] == [];
  }

  // ── legal spellings ────────────────────────────────────────────────────────

  datatype QuotedChar = Plain(c: char) | Escaped(c: char)

  datatype Spelling = Bare(text: string) | Quoted(chars: seq<QuotedChar>)

  /** One parameter as a person may type it: white space is free around the `=`. */
  datatype Setting = Setting(lead: string, key: string, before: string, after: string, spelling: Spelling)

  predicate CleanKey(key: string) {
    key != [] && forall i :: 0 <= i < |key| ==> !EndsKey(key[i])
  }

  predicate LegalSpelling(v: Spelling) {
    match v
    case Bare(text) => text != [] && text[0] != '\'' && NoSpace(text)
    case Quoted(chars) => forall i :: 0 <= i < |chars| && chars[i].Plain? ==> chars[i].c != '\'' && chars[i].c != '\\'
  }

  /** Two parameters need white space between them unless the first one is quoted. */
  ghost predicate LegalSettings(xs: seq<Setting>) {
    && (forall x :: x in xs ==>
          AllSpace(x.lead) && AllSpace(x.before) && AllSpace(x.after) && CleanKey(x.key) && LegalSpelling(x.spelling))
    && (forall i :: 0 < i < |xs| && xs[i - 1].spelling.Bare? ==> xs[i].lead != [])
  }

  function RenderQuoted(chars: seq<QuotedChar>): string {
    if chars == [] then "'"
    else (match chars[0] case Plain(c) => [c] case Escaped(c) => ['\\', c]) + RenderQuoted(chars[1..])
  }

  function RenderSpelling(v: Spelling): string {
    match v
    case Bare(text) => text
    case Quoted(chars) => "'" + RenderQuoted(chars)
  }

  function RenderSetting(x: Setting): string {
    x.lead + (x.key + (x.before + ("=" + (x.after + RenderSpelling(x.spelling)))))
  }

  function Render(xs: seq<Setting>): string {
    if xs == [] then [] else RenderSetting(xs[0]) + Render(xs[1..])
  }

  function Chars(chars: seq<QuotedChar>): string {
    if chars == [] then [] else [chars[0].c] + Chars(chars[1..])
  }

  function Meaning(v: Spelling): string {
    match v case Bare(text) => text case Quoted(chars) => Chars(chars)
  }

  function Meanings(xs: seq<Setting>): seq<Param> {
    if xs == [] then [] else [Param(xs[0].key, Meaning(xs[0].spelling))] + Meanings(xs[1..])
  }

  lemma {:induction false} KeyLengthOf(key: string, rest: string)
    requires forall i :: 0 <= i < |key| ==> !EndsKey(key[i])
    requires rest != [] && EndsKey(rest[0])
    ensures KeyLength(key + rest) == |key|
  {
    if key == [] {
      assert key + rest == rest;
    } else {
      assert (key + rest)[1..] == key[1..] + rest;
      KeyLengthOf(key[1..], rest);
    }
  }

  lemma {:induction false} ScanQuotedReads(chars: seq<QuotedChar>, rest: string)
    requires LegalSpelling(Quoted(chars))
    ensures ScanQuoted(RenderQuoted(chars) + rest) == Scanned(Chars(chars), rest)
  {
    var s := RenderQuoted(chars) + rest;
    if chars == [] {
      assert s[1..] == rest;
    } else {
      assert LegalSpelling(Quoted(chars[1..]));
      ScanQuotedReads(chars[1..], rest);
      var tail := RenderQuoted(chars[1..]) + rest;
      if chars[0].Plain? {
        assert s[1..] == tail;
      } else {
        assert s[2..] == tail;
      }
    }
  }

  lemma {:induction false} ScanRawReads(text: string, rest: string)
    requires NoSpace(text)
    requires rest == [] || IsSpace(rest[0])
    ensures ScanRaw(text + rest) == Scanned(text, rest)
  {
    if text == [] {
      assert text + rest == rest;
    } else {
      assert (text + rest)[1..] == text[1..] + rest;
      ScanRawReads(text[1..], rest);
    }
  }

  lemma ScanValueReads(v: Spelling, rest: string)
    requires LegalSpelling(v)
    requires v.Bare? ==> rest == [] || IsSpace(rest[0])
    ensures ScanValue(RenderSpelling(v) + rest) == Scanned(Meaning(v), rest)
  {
    match v
    case Bare(text) =>
      ScanRawReads(text, rest);
    case Quoted(chars) =>
      ScanQuotedReads(chars, rest);
      assert (RenderSpelling(v) + rest)[1..] == RenderQuoted(chars) + rest;
  }

  /** One setting in front of anything the grammar lets follow it. */
  lemma ScanReadsSetting(x: Setting, rest: string)
    requires LegalSettings([x])
    requires x.spelling.Bare? ==> rest == [] || IsSpace(rest[0])
    ensures ScanParam(RenderSetting(x) + rest) == Some(ScannedParam(Param(x.key, Meaning(x.spelling)), rest))
  {
    assert x in [x];
    var value := RenderSpelling(x.spelling) + rest;
    var sign := "=" + (x.after + value);
    var word := x.key + (x.before + sign);
    assert RenderSetting(x) + rest == x.lead + word;
    TrimLeftSkips(x.lead, word);
    assert x.before + sign != [] && EndsKey((x.before + sign)[0]);
    KeyLengthOf(x.key, x.before + sign);
    assert word[..|x.key|] == x.key && word[|x.key|..] == x.before + sign;
    TrimLeftSkips(x.before, sign);
    assert sign[1..] == x.after + value;
    assert value != [] && !IsSpace(value[0]);
    TrimLeftSkips(x.after, value);
    ScanValueReads(x.spelling, rest);
  }

  lemma LegalParts(xs: seq<Setting>)
    requires LegalSettings(xs) && xs != []
    ensures LegalSettings([xs[0]]) && LegalSettings(xs[1..])
    ensures |xs| > 1 && xs[0].spelling.Bare? ==> xs[1].lead != [] && IsSpace(xs[1].lead[0])
  {
    assert xs[0] in xs;
    assert forall x :: x in xs[1..] ==> x in xs;
    forall i | 0 < i < |xs[1..]| && xs[1..][i - 1].spelling.Bare? ensures xs[1..][i].lead != [] {
      assert xs[1..][i] == xs[i + 1] && xs[1..][i - 1] == xs[i];
    }
    assert |xs| > 1 ==> xs[1] in xs;
  }

  lemma RenderStarts(xs: seq<Setting>, trailing: string)
    requires xs != [] && xs[0].lead != [] && IsSpace(xs[0].lead[0])
    ensures Render(xs) + trailing != [] && IsSpace((Render(xs) + trailing)[0])
  {
    assert RenderSetting(xs[0])[0] == xs[0].lead[0];
  }

  /** The scanner recovers every parameter of a legally spelled string, in order, up to where it finds no more. */
  lemma {:induction false} ScanReadsUpTo(xs: seq<Setting>, tail: string)
    requires LegalSettings(xs) && Scan(tail) == [] && (tail == [] || IsSpace(tail[0]))
    ensures Scan(Render(xs) + tail) == Meanings(xs)
  {
    if xs == [] {
      assert Render(xs) + tail == tail;
    } else {
      var rest := Render(xs[1..]) + tail;
      assert Render(xs) + tail == RenderSetting(xs[0]) + rest;
      LegalParts(xs);
      if |xs| > 1 && xs[0].spelling.Bare? {
        RenderStarts(xs[1..], tail);
      }
      ScanReadsSetting(xs[0], rest);
      ScanReadsUpTo(xs[1..], tail);
    }
  }

  lemma ScanReadsEverySpelling(xs: seq<Setting>, trailing: string)
    requires LegalSettings(xs) && AllSpace(trailing)
    ensures Scan(Render(xs) + trailing) == Meanings(xs)
  {
    TrimLeftSkips(trailing, []);
    assert trailing + [] == trailing;
    ScanReadsUpTo(xs, trailing);
  }

  /** A word that no `=` follows ends the reading: what came before it counts, whatever comes behind it does not. */
  lemma WordEndsTheReading(xs: seq<Setting>, lead: string, word: string, gap: string, rest: string)
    requires LegalSettings(xs) && lead != [] && AllSpace(lead) && CleanKey(word) && AllSpace(gap)
    requires rest != [] ==> gap != [] && rest[0] != '=' && !IsSpace(rest[0])
    ensures Parse(Render(xs) + (lead + (word + (gap + rest)))) == Parse(Render(xs))
  {
    var tail := lead + (word + (gap + rest));
    TrimLeftSkips(lead, word + (gap + rest));
    if gap + rest == [] {
      assert word + (gap + rest) == word;
      WholeKey(word);
    } else {
      KeyLengthOf(word, gap + rest);
    }
    assert (word + (gap + rest))[|word|..] == gap + rest;
    TrimLeftSkips(gap, rest);
    assert ScanParam(tail) == None;
    ScanReadsUpTo(xs, tail);
    ScanReadsUpTo(xs, []);
    assert Render(xs) + [] == Render(xs);
  }

  lemma {:induction false} WholeKey(key: string)
    requires forall i :: 0 <= i < |key| ==> !EndsKey(key[i])
    ensures KeyLength(key) == |key|
  {
    if key != [] {
      WholeKey(key[1..]);
    }
  }

  // ── what a list of assignments comes to ────────────────────────────────────

  /** The value of the last assignment to `key`. */
  function LastValue(found: seq<Param>, key: string): Option<string> {
    if found == [] then None
    else if LastValue(found[1..], key).Some? then LastValue(found[1..], key)
    else if found[0].key == key then Some(found[0].value) else None
  }

  function KeysOf(d: Params): seq<string> {
    if d == [] then [] else [d[0].key] + KeysOf(d[1..])
  }

  /** The keys in the order of their first assignments, behind those in `known`. */
  function FirstKeys(known: seq<string>, found: seq<Param>): seq<string>
    decreases |found|
  {
    if found == [] then known
    else FirstKeys(if found[0].key == "" || found[0].key in known then known else known + [found[0].key], found[1..])
  }

  lemma {:induction false} PutGets(d: Params, k: string, value: string, key: string)
    ensures Get(Put(d, k, value), key) == if k == key then Some(value) else Get(d, key)
    ensures KeysOf(Put(d, k, value)) == if k in KeysOf(d) then KeysOf(d) else KeysOf(d) + [k]
  {
    if d != [] && d[0].key != k {
      PutGets(d[1..], k, value, key);
      assert ([d[0]] + Put(d[1..], k, value))[1..] == Put(d[1..], k, value);
    } else {
      assert d != [] ==> ([Param(k, value)] + d[1..])[1..] == d[1..];
    }
  }

  lemma {:induction false} StoreGets(d: Params, found: seq<Param>, key: string)
    requires key != ""
    ensures Get(Store(d, found), key) == if LastValue(found, key).Some? then LastValue(found, key) else Get(d, key)
    ensures KeysOf(Store(d, found)) == FirstKeys(KeysOf(d), found)
    decreases |found|
  {
    if found != [] {
      PutGets(d, found[0].key, found[0].value, key);
      StoreGets(if found[0].key == [] then d else Put(d, found[0].key, found[0].value), found[1..], key);
    }
  }

  /** Every legally spelled string is read as what it means: later assignments win, in the place of the first. */
  lemma ParseReadsEverySpelling(xs: seq<Setting>, trailing: string)
    requires LegalSettings(xs) && AllSpace(trailing)
    ensures Parse(Render(xs) + trailing) == Store([], Meanings(xs))
    ensures KeysOf(Parse(Render(xs) + trailing)) == FirstKeys([], Meanings(xs))
    ensures forall key :: key != "" ==> Get(Parse(Render(xs) + trailing), key) == LastValue(Meanings(xs), key)
  {
    ScanReadsEverySpelling(xs, trailing);
    StoreGets([], Meanings(xs), "key");
    forall key | key != "" ensures Get(Parse(Render(xs) + trailing), key) == LastValue(Meanings(xs), key) {
      StoreGets([], Meanings(xs), key);
    }
  }

  // ── the printer ────────────────────────────────────────────────────────────

  predicate NeedsQuotes(value: string) {
    value == [] || (exists i :: 0 <= i < |value| && IsSpace(value[i])) || '\'' in value || '\\' in value
  }

  /** `value.replace(c, with)` for a one-character needle. */
  function Replace(value: string, c: char, with: string): string {
    if value == [] then []
    else (if value[0] == c then with else [value[0]]) + Replace(value[1..], c, with)
  }

  function FormatParam(p: Param): string {
    if NeedsQuotes(p.value)
    then p.key + "='" + Replace(Replace(p.value, '\\', "\\\\"), '\'', "\\'") + "'"
    else p.key + "=" + p.value
  }

  /** `" ".join(...)` */
  function Join(parts: seq<string>): string {
    if parts == [] then [] else if |parts| == 1 then parts[0] else parts[0] + " " + Join(parts[1..])
  }

  function FormatParts(d: Params): seq<string> {
    seq(|d|, i requires 0 <= i < |d| => FormatParam(d[i]))
  }

  function Format(d: Params): string {
    Join(FormatParts(d))
  }

  /** `_format_keyword_value_dsn`. */
  method FormatKeywordValueDsn(params: Params) returns (dsn: string)
    ensures dsn == Format(params)
  {
    var parts: seq<string> := [];
    for i := 0 to |params|
      invariant parts == FormatParts(params[..i])
    {
      var value := params[i].value;
      if NeedsQuotes(value) {
        var escaped := Replace(Replace(value, '\\', "\\\\"), '\'', "\\'");
        parts := parts + [params[i].key + "='" + escaped + "'"];
      } else {
        parts := parts + [params[i].key + "=" + value];
      }
    }
    assert params[..|params|] == params;
    dsn := Join(parts);
  }

  // ── the printer produces legal spellings ───────────────────────────────────

  function EscapeChars(value: string): seq<QuotedChar> {
    seq(|value|, i requires 0 <= i < |value| =>
      if value[i] == '\\' || value[i] == '\'' then Escaped(value[i]) else Plain(value[i]))
  }

  function SettingOf(p: Param, first: bool): Setting {
    Setting(if first then "" else " ", p.key, "", "",
            if NeedsQuotes(p.value) then Quoted(EscapeChars(p.value)) else Bare(p.value))
  }

  function SettingsOf(d: Params, first: bool): (xs: seq<Setting>)
    ensures |xs| == |d|
  {
    if d == [] then [] else [SettingOf(d[0], first)] + SettingsOf(d[1..], false)
  }

  /** What the printer makes of one character. */
  function Escape(c: char): string {
    if c == '\\' then "\\\\" else if c == '\'' then "\\'" else [c]
  }

  function EscapeAll(value: string): string {
    if value == [] then [] else Escape(value[0]) + EscapeAll(value[1..])
  }

  /** Two replacements, one after the other, escape every character once. */
  lemma {:induction false} ReplaceTwiceEscapes(value: string)
    ensures Replace(Replace(value, '\\', "\\\\"), '\'', "\\'") == EscapeAll(value)
  {
    if value != [] {
      ReplaceTwiceEscapes(value[1..]);
      var inner := Replace(value[1..], '\\', "\\\\");
      if value[0] == '\\' {
        var whole := "\\\\" + inner;
        assert whole[1..] == "\\" + inner && whole[1..][1..] == inner;
        assert Replace(whole, '\'', "\\'") == "\\" + ("\\" + Replace(inner, '\'', "\\'"));
      } else {
        assert ([value[0]] + inner)[1..] == inner;
      }
    }
  }

  lemma {:induction false} EscapeCharsRead(value: string)
    ensures Chars(EscapeChars(value)) == value
    ensures RenderQuoted(EscapeChars(value)) == EscapeAll(value) + "'"
  {
    if value != [] {
      assert EscapeChars(value)[1..] == EscapeChars(value[1..]);
      EscapeCharsRead(value[1..]);
    }
  }

  lemma EscapeCharsMean(value: string)
    ensures Chars(EscapeChars(value)) == value
    ensures RenderQuoted(EscapeChars(value)) == Replace(Replace(value, '\\', "\\\\"), '\'', "\\'") + "'"
  {
    ReplaceTwiceEscapes(value);
    EscapeCharsRead(value);
  }

  lemma RenderPlain(key: string, spelling: Spelling, first: bool)
    ensures RenderSetting(Setting(if first then "" else " ", key, "", "", spelling))
         == (if first then "" else " ") + (key + ("=" + RenderSpelling(spelling)))
  {
    var v := RenderSpelling(spelling);
    assert "" + v == v && "" + ("=" + v) == "=" + v;
  }

  lemma FormatParamIsSetting(p: Param, first: bool)
    ensures RenderSetting(SettingOf(p, first)) == (if first then "" else " ") + FormatParam(p)
    ensures Meaning(SettingOf(p, first).spelling) == p.value
  {
    var spelling := SettingOf(p, first).spelling;
    RenderPlain(p.key, spelling, first);
    if NeedsQuotes(p.value) {
      EscapeCharsMean(p.value);
      var inner := Replace(Replace(p.value, '\\', "\\\\"), '\'', "\\'");
      assert p.key + "='" + inner + "'" == p.key + ("=" + ("'" + (inner + "'")));
    } else {
      assert p.key + "=" + p.value == p.key + ("=" + p.value);
    }
  }

  lemma SettingOfIsLegal(p: Param, first: bool)
    requires CleanKey(p.key)
    ensures LegalSettings([SettingOf(p, first)])
  {
    var x := SettingOf(p, first);
    assert LegalSpelling(x.spelling);
    assert forall y :: y in [x] ==> y == x;
  }

  lemma FormatUnfolds(d: Params)
    requires d != []
    ensures Format(d) == FormatParam(d[0]) + (if |d| == 1 then "" else " " + Format(d[1..]))
  {
    assert FormatParts(d)[1..] == FormatParts(d[1..]);
  }

  lemma LegalSettingsCons(x: Setting, xs: seq<Setting>)
    requires LegalSettings([x]) && LegalSettings(xs)
    requires xs != [] ==> xs[0].lead != []
    ensures LegalSettings([x] + xs)
  {
    var all := [x] + xs;
    assert x in [x];
    forall i | 0 < i < |all| && all[i - 1].spelling.Bare? ensures all[i].lead != [] {
      assert i > 1 ==> all[i] == xs[i - 1] && all[i - 1] == xs[i - 2];
    }
  }

  lemma {:induction false} SettingsAreLegal(d: Params, first: bool)
    requires forall i :: 0 <= i < |d| ==> CleanKey(d[i].key)
    ensures LegalSettings(SettingsOf(d, first))
    ensures !first && d != [] ==> SettingsOf(d, first)[0].lead != []
    ensures Meanings(SettingsOf(d, first)) == d
  {
    if d != [] {
      SettingsAreLegal(d[1..], false);
      FormatParamIsSetting(d[0], first);
      SettingOfIsLegal(d[0], first);
      LegalSettingsCons(SettingOf(d[0], first), SettingsOf(d[1..], false));
    }
  }

  lemma {:induction false} FormatIsSettings(d: Params, first: bool)
    ensures Render(SettingsOf(d, first)) == (if first || d == [] then "" else " ") + Format(d)
  {
    if d != [] {
      FormatIsSettings(d[1..], false);
      FormatParamIsSetting(d[0], first);
      FormatUnfolds(d);
      RenderCons(SettingOf(d[0], first), SettingsOf(d[1..], false));
    }
  }

  lemma RenderCons(x: Setting, xs: seq<Setting>)
    ensures Render([x] + xs) == RenderSetting(x) + Render(xs)
  {
    assert ([x] + xs)[1..] == xs;
  }

  // ── what the scanner can return, and the round trip ────────────────────────

  /** The dictionaries the scanner produces: distinct keys, each non-empty with no `=` or white space. */
  ghost predicate WellFormed(d: Params) {
    DistinctKeys(d) && forall i :: 0 <= i < |d| ==> CleanKey(d[i].key)
  }

  lemma WellFormedCons(p: Param, d: Params)
    requires WellFormed(d) && CleanKey(p.key) && forall q :: q in d ==> q.key != p.key
    ensures WellFormed([p] + d)
  {
  }

  lemma WellFormedTail(d: Params)
    requires WellFormed(d) && d != []
    ensures CleanKey(d[0].key) && WellFormed(d[1..]) && forall q :: q in d[1..] ==> q.key != d[0].key
  {
    assert forall i :: 0 <= i < |d[1..]| ==> d[1..][i] == d[i + 1];
  }

  lemma {:induction false} PutMembers(d: Params, key: string, value: string)
    ensures forall p :: p in Put(d, key, value) ==> p.key == key || p in d
  {
    if d != [] && d[0].key != key {
      PutMembers(d[1..], key, value);
    }
  }

  lemma {:induction false} PutKeepsWellFormed(d: Params, key: string, value: string)
    requires WellFormed(d) && CleanKey(key)
    ensures WellFormed(Put(d, key, value))
  {
    if d != [] {
      WellFormedTail(d);
      if d[0].key == key {
        WellFormedCons(Param(key, value), d[1..]);
      } else {
        PutKeepsWellFormed(d[1..], key, value);
        PutMembers(d[1..], key, value);
        WellFormedCons(d[0], Put(d[1..], key, value));
      }
    }
  }

  lemma {:induction false} KeyLengthIsClean(s: string)
    ensures forall i :: 0 <= i < KeyLength(s) ==> !EndsKey(s[i])
  {
    if s == [] || EndsKey(s[0]) {
    } else {
      KeyLengthIsClean(s[1..]);
      assert forall i :: 1 <= i < |s| ==> s[i] == s[1..][i - 1];
    }
  }

  lemma {:induction false} ScanKeysAreClean(s: string)
    ensures forall p :: p in Scan(s) && p.key != [] ==> CleanKey(p.key)
    decreases |s|
  {
    var r := ScanParam(s);
    if r.Some? {
      KeyLengthIsClean(TrimLeft(s));
      ScanKeysAreClean(r.value.rest);
    }
  }

  lemma {:induction false} StoreKeepsWellFormed(d: Params, found: seq<Param>)
    requires WellFormed(d)
    requires forall p :: p in found && p.key != [] ==> CleanKey(p.key)
    ensures WellFormed(Store(d, found))
    decreases |found|
  {
    if found == [] {
    } else {
      if found[0].key != [] {
        PutKeepsWellFormed(d, found[0].key, found[0].value);
      }
      StoreKeepsWellFormed(if found[0].key == [] then d else Put(d, found[0].key, found[0].value), found[1..]);
    }
  }

  lemma ParseIsWellFormed(dsn: string)
    ensures WellFormed(Parse(dsn))
  {
    ScanKeysAreClean(dsn);
    StoreKeepsWellFormed([], Scan(dsn));
  }

  lemma {:induction false} PutAppends(d: Params, key: string, value: string)
    requires forall i :: 0 <= i < |d| ==> d[i].key != key
    ensures Put(d, key, value) == d + [Param(key, value)]
  {
    if d == [] {
    } else {
      PutAppends(d[1..], key, value);
    }
  }

  lemma {:induction false} StoreAppends(d: Params, found: Params)
    requires WellFormed(d + found)
    ensures Store(d, found) == d + found
    decreases |found|
  {
    if found == [] {
      assert d + found == d;
    } else {
      assert (d + found)[|d|] == found[0];
      forall i | 0 <= i < |d| ensures d[i].key != found[0].key {
        assert (d + found)[i] == d[i];
      }
      PutAppends(d, found[0].key, found[0].value);
      assert d + found == (d + [found[0]]) + found[1..];
      StoreAppends(d + [found[0]], found[1..]);
    }
  }

  lemma ParseUndoesFormat(d: Params)
    requires WellFormed(d)
    ensures Parse(Format(d)) == d
  {
    FormatIsSettings(d, true);
    SettingsAreLegal(d, true);
    assert Render(SettingsOf(d, true)) + [] == Format(d);
    ParseReadsEverySpelling(SettingsOf(d, true), []);
    assert [] + d == d;
    StoreAppends([], d);
  }

  /** The printer is inverted exactly on the dictionaries the scanner can produce. */
  lemma RoundTripExactly(d: Params)
    ensures Parse(Format(d)) == d <==> WellFormed(d)
  {
    ParseIsWellFormed(Format(d));
    if WellFormed(d) {
      ParseUndoesFormat(d);
    }
  }

  /** Printing what was scanned and scanning it again changes nothing, for every string. */
  lemma ParseFormatParse(s: string)
    ensures Parse(Format(Parse(s))) == Parse(s)
  {
    ParseIsWellFormed(s);
    ParseUndoesFormat(Parse(s));
  }

  // ── moving the password out of the DSN ─────────────────────────────────────

  datatype DumpTarget = DumpTarget(pgPassword: Option<string>, safeDsn: string)

  const PASSWORD := "password"

  lemma {:induction false} RemoveMembers(d: Params, key: string)
    requires WellFormed(d)
    ensures forall p :: p in Remove(d, key) <==> p in d && p.key != key
  {
    if d != [] {
      WellFormedTail(d);
      assert forall p :: p in d <==> p == d[0] || p in d[1..];
      if d[0].key != key {
        RemoveMembers(d[1..], key);
      }
    }
  }

  lemma {:induction false} RemoveKeepsWellFormed(d: Params, key: string)
    requires WellFormed(d)
    ensures WellFormed(Remove(d, key))
    ensures forall p :: p in Remove(d, key) <==> p in d && p.key != key
  {
    RemoveMembers(d, key);
    if d != [] {
      WellFormedTail(d);
      if d[0].key != key {
        RemoveKeepsWellFormed(d[1..], key);
        WellFormedCons(d[0], Remove(d[1..], key));
      }
    }
  }

  /** The keyword/value branch of `pg_dump_command`. */
  method KeywordDumpTarget(dsn: string) returns (t: DumpTarget)
    // a non-empty password moves to the environment; the rest keeps values and order
    ensures Get(Parse(dsn), PASSWORD) !in {None, Some("")} ==>
              t.pgPassword == Get(Parse(dsn), PASSWORD)
              && Parse(t.safeDsn) == Remove(Parse(dsn), PASSWORD)
              && (forall p :: p in Parse(t.safeDsn) <==> p in Parse(dsn) && p.key != PASSWORD)
    // otherwise the string is passed through untouched
    ensures Get(Parse(dsn), PASSWORD) in {None, Some("")} ==> t == DumpTarget(None, dsn)
  {
    var params := ParseKeywordValueDsn(dsn);
    var password := Get(params, PASSWORD);
    params := Remove(params, PASSWORD);
    t := DumpTarget(None, dsn);
    if password.Some? && password.value != "" {
      var safe := FormatKeywordValueDsn(params);
      t := DumpTarget(password, safe);
      ParseIsWellFormed(dsn);
      RemoveKeepsWellFormed(Parse(dsn), PASSWORD);
      ParseUndoesFormat(params);
    }
  }
}
