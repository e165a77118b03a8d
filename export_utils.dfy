/** The CSV text `exportToCSV` builds before handing it to the browser: a
    header of every key seen, in first-seen order, then one line per record
    with one cell per header column. A string cell holding a comma, a double
    quote or a line feed is quoted with its quotes doubled, as in section 2,
    items 6 and 7 of RFC 4180; lines end in "\n" rather than CRLF. */
module ExportUtils {
  import opened Wrappers
  import opened Strings
  import opened Records

  // ---------------------------------------------------------------------------
  // The header

  /** Every record's keys, one record after another. */
  function FlatKeys(data: seq<Record>): seq<string>
  {
    if data == [] then [] else Keys(data[0]) + FlatKeys(data[1..])
  }

  lemma {:induction false} FlatKeysHas(data: seq<Record>, k: string)
    ensures k in FlatKeys(data) <==> exists i :: 0 <= i < |data| && k in Keys(data[i])
  {
    if data != [] {
      FlatKeysHas(data[1..], k);
      if k in FlatKeys(data[1..]) {
        var i :| 0 <= i < |data[1..]| && k in Keys(data[1..][i]);
        assert data[i + 1] == data[1..][i];
      }
      if exists i :: 0 <= i < |data| && k in Keys(data[i]) {
        var i :| 0 <= i < |data| && k in Keys(data[i]);
        if i > 0 {
          assert data[1..][i - 1] == data[i];
        }
      }
    }
  }

  /** `Array.from(new Set(s))`: the first occurrence of each element. */
  function Dedup(s: seq<string>): (d: seq<string>)
    ensures forall x :: x in d <==> x in s
  {
    if s == [] then []
    else
      var d := Dedup(s[..|s| - 1]);
      assert s == s[..|s| - 1] + [s[|s| - 1]];
      if s[|s| - 1] in d then d else d + [s[|s| - 1]]
  }

  predicate Distinct(d: seq<string>)
  {
    forall i, j :: 0 <= i < j < |d| ==> d[i] != d[j]
  }

  /** Whenever `d[j]` occurs in `s`, every earlier `d[i]` has already
      occurred. */
  predicate FirstSeenOrder(d: seq<string>, s: seq<string>)
  {
    forall i, j, k :: 0 <= i < j < |d| && 0 <= k < |s| && s[k] == d[j] ==> d[i] in s[..k]
  }

  lemma {:induction false} DedupOrder(s: seq<string>)
    ensures Distinct(Dedup(s)) && FirstSeenOrder(Dedup(s), s)
  {
    if s != [] {
      var p := s[..|s| - 1];
      var x := s[|s| - 1];
      var d := Dedup(p);
      DedupOrder(p);
      var d' := Dedup(s);
      forall i, j, k | 0 <= i < j < |d'| && 0 <= k < |s| && s[k] == d'[j]
        ensures d'[i] in s[..k]
      {
        assert d'[i] in d;
        if k == |s| - 1 {
          assert s[..k] == p;
        } else if x !in d && j == |d| {
          assert false;
        } else {
          assert s[k] == p[k] && s[..k] == p[..k];
        }
      }
    }
  }

  /** `Array.from(new Set(data.flatMap(item => Object.keys(item))))`. */
  function AllKeys(data: seq<Record>): seq<string>
  {
    Dedup(FlatKeys(data))
  }

  /** The header names each key of each record exactly once, in the order
      the keys are first met. */
  lemma HeaderKeys(data: seq<Record>)
    ensures Distinct(AllKeys(data))
    ensures forall k :: k in AllKeys(data) <==> exists i :: 0 <= i < |data| && k in Keys(data[i])
    ensures FirstSeenOrder(AllKeys(data), FlatKeys(data))
  {
    DedupOrder(FlatKeys(data));
    forall k
      ensures k in AllKeys(data) <==> exists i :: 0 <= i < |data| && k in Keys(data[i])
    {
      FlatKeysHas(data, k);
    }
  }

  // ---------------------------------------------------------------------------
  // Cells

  predicate NeedsQuotes(s: string)
  {
    ',' in s || '"' in s || '\n' in s
  }

  /** `s.replace(/"/g, '""')`. */
  function Doubled(s: string): (r: string)
    ensures forall c :: c != '"' ==> (c in r <==> c in s)
  {
    if s == [] then [] else (if s[0] == '"' then "\"\"" else [s[0]]) + Doubled(s[1..])
  }

  /** `"${s.replace(/"/g, '""')}"`. */
  function Quote(s: string): string
  {
    "\"" + Doubled(s) + "\""
  }

  /** The text `join(",")` prints for `item[key]` once the empty-cell rule
      has applied: a missing key, null and undefined print nothing, and a
      nested value prints as an array element does. A nested value on
      which `join` throws is shown empty. */
  function Shown(v: Option<Value>): string
  {
    match v
    case None => ""
    case Some(VNull) => ""
    case Some(VUndefined) => ""
    case Some(VStr(s)) => s
    case Some(VNum(text)) => text
    case Some(VBool(b)) => if b then "true" else "false"
    case Some(VJson(j)) => match ElementText(j) case Some(t) => t case None => ""
  }

  /** The cell for `item[key]`. */
  function Cell(v: Option<Value>): (c: string)
    ensures v.None? || v == Some(VNull) || v == Some(VUndefined) ==> c == ""
    ensures !(v.Some? && v.value.VStr? && NeedsQuotes(v.value.s)) ==> c == Shown(v)
    ensures v.Some? && v.value.VStr? && NeedsQuotes(v.value.s) ==>
      |c| >= 2 && c[0] == '"' && c[|c| - 1] == '"' && Undouble(c[1..|c| - 1]) == v.value.s
  {
    match v
    case Some(VStr(s)) =>
      if NeedsQuotes(s) then
        UndoubleDoubled(s);
        assert Quote(s)[1..|Quote(s)| - 1] == Doubled(s);
        Quote(s)
      else s
    case _ => Shown(v)
  }

  /** One line of the body, without its line feed. */
  function Row(keys: seq<string>, item: Record): string
  {
    Join(seq(|keys|, i requires 0 <= i < |keys| => Cell(Get(item, keys[i]))), ",")
  }

  // ---------------------------------------------------------------------------
  // The whole text

  /** The lines after the header, each ending in "\n". */
  function Body(keys: seq<string>, data: seq<Record>): string
  {
    if data == [] then "" else Row(keys, data[0]) + "\n" + Body(keys, data[1..])
  }

  lemma Append3(a: string, b: string, c: string)
    ensures a + b + c == a + (b + c)
  {
  }

  lemma {:induction false} BodySnoc(keys: seq<string>, data: seq<Record>, item: Record)
    ensures Body(keys, data + [item]) == Body(keys, data) + (Row(keys, item) + "\n")
  {
    if data == [] {
      assert [] + [item] == [item];
    } else {
      assert (data + [item])[1..] == data[1..] + [item];
      BodySnoc(keys, data[1..], item);
    }
  }

  /** The text of `exportToCSV(data)`: nothing for an empty list. */
  function CsvText(data: seq<Record>): Option<string>
  {
    if data == [] then None
    else
      var keys := AllKeys(data);
      Some(Join(keys, ",") + "\n" + Body(keys, data))
  }

  /** `exportToCSV`: the header, then one `csv += row + "\n"` per record. */
  method ExportToCsv(data: seq<Record>) returns (csv: Option<string>)
    ensures csv == CsvText(data)
  {
    if |data| == 0 {
      return None;
    }
    var allKeys := AllKeys(data);
    var text := Join(allKeys, ",") + "\n";
    ghost var header := text;
    var i := 0;
    while i < |data|
      invariant 0 <= i <= |data|
      invariant text == header + Body(allKeys, data[..i])
    {
      var row := Row(allKeys, data[i]);
      BodySnoc(allKeys, data[..i], data[i]);
      assert data[..i + 1] == data[..i] + [data[i]];
      Append3(header, Body(allKeys, data[..i]), row + "\n");
      text := text + (row + "\n");
      i := i + 1;
    }
    assert data[..i] == data;
    csv := Some(text);
  }

  // ---------------------------------------------------------------------------
  // Reading the text back: a reader for one line of RFC 4180 fields

  /** Inside a quoted field after its opening quote: the field's value and
      what follows the closing quote; `""` stands for one quote. */
  function Quoted(t: string): (r: Option<(string, string)>)
    ensures r.Some? ==> |r.value.1| < |t|
  {
    if t == [] then None
    else if t[0] == '"' then
      if |t| >= 2 && t[1] == '"' then
        match Quoted(t[2..])
        case None => None
        case Some((v, rest)) => Some(("\"" + v, rest))
      else Some(([], t[1..]))
    else
      match Quoted(t[1..])
      case None => None
      case Some((v, rest)) => Some(([t[0]] + v, rest))
  }

  /** An unquoted field runs to the next comma. */
  function Unquoted(t: string): (r: (string, string))
    ensures |r.1| <= |t|
  {
    if t == [] || t[0] == ',' then ([], t)
    else
      var (v, rest) := Unquoted(t[1..]);
      ([t[0]] + v, rest)
  }

  function Field(t: string): (r: Option<(string, string)>)
    ensures r.Some? ==> |r.value.1| <= |t|
  {
    if t != [] && t[0] == '"' then Quoted(t[1..]) else Some(Unquoted(t))
  }

  /** The values of the comma-separated fields of one line, or `None` when
      a quoted field is malformed. */
  function Fields(t: string): Option<seq<string>>
    decreases |t|
  {
    match Field(t)
    case None => None
    case Some((v, rest)) =>
      if rest == [] then Some([v])
      else if rest[0] != ',' then None
      else
        match Fields(rest[1..])
        case None => None
        case Some(vs) => Some([v] + vs)
  }

  /** Removing the doubling of quotes. */
  function Undouble(t: string): string
  {
    if t == [] then []
    else if |t| >= 2 && t[0] == '"' && t[1] == '"' then "\"" + Undouble(t[2..])
    else [t[0]] + Undouble(t[1..])
  }

  lemma {:induction false} UndoubleDoubled(s: string)
    ensures Undouble(Doubled(s)) == s
  {
    if s != [] {
      UndoubleDoubled(s[1..]);
      if s[0] == '"' {
        assert ("\"\"" + Doubled(s[1..]))[2..] == Doubled(s[1..]);
      } else {
        assert ([s[0]] + Doubled(s[1..]))[1..] == Doubled(s[1..]);
      }
    }
  }

  /** Removing the outer quotes and the doubling gives back the string. */
  lemma QuoteRoundTrip(s: string)
    ensures Undouble(Quote(s)[1..|Quote(s)| - 1]) == s
  {
    assert Quote(s)[1..|Quote(s)| - 1] == Doubled(s);
    UndoubleDoubled(s);
  }

  lemma {:induction false} QuotedDoubled(s: string, tail: string)
    requires tail == [] || tail[0] == ','
    ensures Quoted(Doubled(s) + "\"" + tail) == Some((s, tail))
  {
    var t := Doubled(s) + "\"" + tail;
    if s == [] {
      assert t == "\"" + tail && t[1..] == tail;
      assert |t| >= 2 ==> t[1] == ',';
    } else {
      var t' := Doubled(s[1..]) + "\"" + tail;
      QuotedDoubled(s[1..], tail);
      if s[0] == '"' {
        assert t == "\"\"" + t';
        QuotedEscape(t', s[1..], tail);
        assert "\"" + s[1..] == s;
      } else {
        assert t == [s[0]] + t';
        QuotedKeep(s[0], t', s[1..], tail);
        assert [s[0]] + s[1..] == s;
      }
    }
  }

  /** A doubled quote inside a quoted field reads as one quote. */
  lemma QuotedEscape(t: string, v: string, rest: string)
    requires Quoted(t) == Some((v, rest))
    ensures Quoted("\"\"" + t) == Some(("\"" + v, rest))
  {
    assert ("\"\"" + t)[2..] == t;
  }

  /** Any other character inside a quoted field reads as itself. */
  lemma QuotedKeep(c: char, t: string, v: string, rest: string)
    requires c != '"' && Quoted(t) == Some((v, rest))
    ensures Quoted([c] + t) == Some(([c] + v, rest))
  {
    assert ([c] + t)[1..] == t;
  }

  lemma {:induction false} UnquotedPlain(s: string, tail: string)
    requires ',' !in s
    requires tail == [] || tail[0] == ','
    ensures Unquoted(s + tail) == (s, tail)
  {
    if s != [] {
      assert (s + tail)[0] == s[0] && s[0] in s;
      assert (s + tail)[1..] == s[1..] + tail;
      UnquotedPlain(s[1..], tail);
      assert [s[0]] + s[1..] == s;
    } else {
      assert s + tail == tail;
    }
  }

  /** A value as it is written in a cell. */
  function Encode(v: string): string
  {
    if NeedsQuotes(v) then Quote(v) else v
  }

  lemma QuotedField(v: string, tail: string)
    requires tail == [] || tail[0] == ','
    ensures Field(Quote(v) + tail) == Some((v, tail))
  {
    QuotedDoubled(v, tail);
    assert (Quote(v) + tail)[1..] == Doubled(v) + "\"" + tail;
  }

  lemma PlainField(v: string, tail: string)
    requires !NeedsQuotes(v)
    requires tail == [] || tail[0] == ','
    ensures Field(v + tail) == Some((v, tail))
  {
    UnquotedPlain(v, tail);
    if v != [] {
      assert (v + tail)[0] == v[0] && v[0] in v;
    } else {
      assert v + tail == tail;
    }
  }

  lemma FieldEncode(v: string, tail: string)
    requires tail == [] || tail[0] == ','
    ensures Field(Encode(v) + tail) == Some((v, tail))
  {
    if NeedsQuotes(v) {
      QuotedField(v, tail);
    } else {
      PlainField(v, tail);
    }
  }

  lemma {:induction false} FieldsJoin(cells: seq<string>, vals: seq<string>)
    requires |cells| == |vals| >= 1
    requires forall i :: 0 <= i < |cells| ==> cells[i] == Encode(vals[i])
    ensures Fields(Join(cells, ",")) == Some(vals)
  {
    if |cells| == 1 {
      FieldEncode(vals[0], []);
      assert cells[0] + [] == cells[0];
      assert Join(cells, ",") == cells[0];
      assert [vals[0]] == vals;
    } else {
      var rest := Join(cells[1..], ",");
      FieldEncode(vals[0], "," + rest);
      assert Join(cells, ",") == cells[0] + "," + rest;
      Append3(cells[0], ",", rest);
      assert ("," + rest)[1..] == rest;
      forall i | 0 <= i < |cells| - 1
        ensures cells[1..][i] == Encode(vals[1..][i])
      {
        assert cells[1..][i] == cells[i + 1];
      }
      FieldsJoin(cells[1..], vals[1..]);
      assert [vals[0]] + vals[1..] == vals;
    }
  }

  /** A value the cell rule writes so that it reads back: numbers print
      without commas, quotes or line feeds, and nested JSON never reaches
      the export (both pipelines flatten or stringify it first). */
  predicate CsvSafe(v: Option<Value>)
  {
    match v
    case Some(VNum(text)) => !NeedsQuotes(text)
    case Some(VJson(_)) => false
    case _ => true
  }

  lemma CellEncodes(v: Option<Value>)
    requires CsvSafe(v)
    ensures Cell(v) == Encode(Shown(v))
  {
  }

  /** Each line of the body holds exactly one field per header column, in
      header order: an RFC 4180 reader gives back each value's text, with
      the quoting undone. */
  lemma RowFields(keys: seq<string>, item: Record)
    requires keys != []
    requires forall k :: k in keys ==> CsvSafe(Get(item, k))
    ensures Fields(Row(keys, item)) == Some(seq(|keys|, i requires 0 <= i < |keys| => Shown(Get(item, keys[i]))))
  {
    var cells := seq(|keys|, i requires 0 <= i < |keys| => Cell(Get(item, keys[i])));
    var vals := seq(|keys|, i requires 0 <= i < |keys| => Shown(Get(item, keys[i])));
    forall i | 0 <= i < |keys|
      ensures cells[i] == Encode(vals[i])
    {
      assert keys[i] in keys;
      CellEncodes(Get(item, keys[i]));
    }
    FieldsJoin(cells, vals);
  }

  // ---------------------------------------------------------------------------
  // Lines

  lemma {:induction false} JoinWithout(parts: seq<string>, sep: string, c: char)
    requires c !in sep
    requires forall i :: 0 <= i < |parts| ==> c !in parts[i]
    ensures c !in Join(parts, sep)
  {
    if |parts| > 1 {
      JoinWithout(parts[1..], sep, c);
    }
  }

  /** No value text holds a line feed. */
  predicate SingleLine(v: Option<Value>)
  {
    '\n' !in Shown(v)
  }

  lemma RowSingleLine(keys: seq<string>, item: Record)
    requires forall k :: k in keys ==> SingleLine(Get(item, k))
    ensures '\n' !in Row(keys, item)
  {
    var cells := seq(|keys|, i requires 0 <= i < |keys| => Cell(Get(item, keys[i])));
    forall i | 0 <= i < |keys|
      ensures '\n' !in cells[i]
    {
      assert keys[i] in keys;
    }
    JoinWithout(cells, ",", '\n');
  }

  /** The body lines, one per record. */
  function Rows(keys: seq<string>, data: seq<Record>): (rows: seq<string>)
    ensures |rows| == |data|
    ensures forall i :: 0 <= i < |data| ==> rows[i] == Row(keys, data[i])
  {
    if data == [] then [] else [Row(keys, data[0])] + Rows(keys, data[1..])
  }

  lemma {:induction false} BodyLines(keys: seq<string>, data: seq<Record>)
    requires forall i, k :: 0 <= i < |data| && k in keys ==> SingleLine(Get(data[i], k))
    ensures Split(Body(keys, data), '\n') == Rows(keys, data) + [""]
  {
    if data != [] {
      var rest := data[1..];
      forall i, k | 0 <= i < |rest| && k in keys
        ensures SingleLine(Get(rest[i], k))
      {
        assert rest[i] == data[i + 1];
      }
      RowSingleLine(keys, data[0]);
      BodyLines(keys, rest);
      SplitFirstWord(Row(keys, data[0]), Body(keys, rest), '\n');
      assert Row(keys, data[0]) + "\n" + Body(keys, rest) == Row(keys, data[0]) + ['\n'] + Body(keys, rest);
      Append3Rows([Row(keys, data[0])], Rows(keys, rest), [""]);
    }
  }

  lemma Append3Rows(a: seq<string>, b: seq<string>, c: seq<string>)
    ensures a + (b + c) == a + b + c
  {
  }

  /** With no line feed in any key or value, the text is the header line
      and one line per record, each ended by "\n". */
  lemma CsvLines(data: seq<Record>)
    requires data != []
    requires forall k :: k in AllKeys(data) ==> '\n' !in k
    requires forall i, k :: 0 <= i < |data| && k in AllKeys(data) ==> SingleLine(Get(data[i], k))
    ensures var keys := AllKeys(data);
      Split(CsvText(data).value, '\n') ==
        [Join(keys, ",")] + Rows(keys, data) + [""]
  {
    var keys := AllKeys(data);
    forall i | 0 <= i < |keys|
      ensures '\n' !in keys[i]
    {
      assert keys[i] in keys;
    }
    JoinWithout(keys, ",", '\n');
    BodyLines(keys, data);
    SplitFirstWord(Join(keys, ","), Body(keys, data), '\n');
    assert Join(keys, ",") + "\n" + Body(keys, data) == Join(keys, ",") + ['\n'] + Body(keys, data);
    Append3Rows([Join(keys, ",")], Rows(keys, data), [""]);
  }
}
