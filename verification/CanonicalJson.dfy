/** Key-value lists sorted by key, as Object.keys(...).sort() orders them. */
module SortedEntries {
  import opened Wrappers

  datatype Entry<T> = Entry(key: string, value: T)

  /** Places a character by its UTF-16 code units: characters beyond the basic plane start with a
      surrogate and so sort before U+E000. */
  function Place(c: char): int {
    var n := c as int;
    if n < 0xD800 then n else if n < 0x1_0000 then n + 0x20_0000 else n
  }

  lemma PlaceIsInjective(c: char, d: char)
    requires Place(c) == Place(d)
    ensures c == d
  {
  }

  /** Strings compare code unit by code unit. */
  predicate Less(a: string, b: string) {
    if b == [] then false
    else if a == [] then true
    else if a[0] == b[0] then Less(a[1..], b[1..])
    else Place(a[0]) < Place(b[0])
  }

  lemma {:induction false} LessIsTotal(a: string, b: string)
    ensures a != b ==> (Less(a, b) <==> !Less(b, a))
    ensures !Less(a, a)
  {
    if a != [] {
      LessIsTotal(a[1..], a[1..]);
      if b != [] {
        if a[0] == b[0] {
          LessIsTotal(a[1..], b[1..]);
          assert a == [a[0]] + a[1..] && b == [b[0]] + b[1..];
        } else if Place(a[0]) == Place(b[0]) {
          PlaceIsInjective(a[0], b[0]);
        }
      }
    }
  }

  lemma {:induction false} LessIsTransitive(a: string, b: string, c: string)
    requires Less(a, b) && Less(b, c)
    ensures Less(a, c)
  {
    if a != [] && a[0] == b[0] && b[0] == c[0] {
      LessIsTransitive(a[1..], b[1..], c[1..]);
    }
  }

  function Insert<T(!new)>(e: Entry<T>, s: seq<Entry<T>>): (r: seq<Entry<T>>)
    ensures |r| == |s| + 1
    ensures forall x :: x in r <==> x == e || x in s
  {
    if s == [] then [e]
    else if Less(e.key, s[0].key) then [e] + s
    else
      assert forall x :: x in s <==> x == s[0] || x in s[1..];
      [s[0]] + Insert(e, s[1..])
  }

  function Sort<T(!new)>(s: seq<Entry<T>>): (r: seq<Entry<T>>)
    ensures |r| == |s|
    ensures forall x :: x in r <==> x in s
  {
    if s == [] then []
    else
      assert forall x :: x in s <==> x == s[0] || x in s[1..];
      Insert(s[0], Sort(s[1..]))
  }

  predicate HasKey<T>(s: seq<Entry<T>>, key: string) {
    exists i | 0 <= i < |s| :: s[i].key == key
  }

  predicate DistinctKeys<T>(s: seq<Entry<T>>) {
    forall i, j | 0 <= i < j < |s| :: s[i].key != s[j].key
  }

  predicate Ascending<T>(s: seq<Entry<T>>) {
    forall i, j | 0 <= i < j < |s| :: Less(s[i].key, s[j].key)
  }

  lemma {:induction false} InsertAscends<T(!new)>(e: Entry<T>, s: seq<Entry<T>>)
    requires Ascending(s) && !HasKey(s, e.key)
    ensures Ascending(Insert(e, s))
  {
    if s != [] {
      LessIsTotal(e.key, s[0].key);
      if Less(e.key, s[0].key) {
        forall i | 0 < i < |s| ensures Less(e.key, s[i].key) {
          LessIsTransitive(e.key, s[0].key, s[i].key);
        }
      } else {
        InsertAscends(e, s[1..]);
        var rest := Insert(e, s[1..]);
        forall i | 0 <= i < |rest| ensures Less(s[0].key, rest[i].key) {
          assert rest[i] in rest;
        }
      }
    }
  }

  lemma {:induction false} SortAscends<T(!new)>(s: seq<Entry<T>>)
    requires DistinctKeys(s)
    ensures Ascending(Sort(s))
  {
    if s != [] {
      SortAscends(s[1..]);
      var rest := Sort(s[1..]);
      forall i | 0 <= i < |rest| ensures rest[i].key != s[0].key {
        assert rest[i] in s[1..];
      }
      InsertAscends(s[0], rest);
    }
  }

  lemma {:induction false} SortOfAscending<T(!new)>(s: seq<Entry<T>>)
    requires Ascending(s)
    ensures Sort(s) == s
  {
    if s != [] {
      SortOfAscending(s[1..]);
      assert s == [s[0]] + s[1..];
    }
  }

  /** Two ascending lists of one length, one inside the other, are equal. */
  lemma {:induction false} AscendingIsUnique<T(!new)>(a: seq<Entry<T>>, b: seq<Entry<T>>)
    requires Ascending(a) && Ascending(b) && |a| == |b| && forall x | x in a :: x in b
    ensures a == b
  {
    if a != [] {
      FirstIsFirst(a, b);
      forall x | x in a[1..] ensures x in b[1..] {
        var i :| 0 <= i < |a[1..]| && a[1..][i] == x;
        LessIsTotal(a[0].key, a[0].key);
        assert Less(a[0].key, a[i + 1].key);
        assert x in b && x != b[0];
      }
      AscendingIsUnique(a[1..], b[1..]);
      assert a == [a[0]] + a[1..] && b == [b[0]] + b[1..];
    }
  }

  lemma FirstIsLeast<T>(a: seq<Entry<T>>, j: nat)
    requires Ascending(a) && j < |a|
    ensures a[j] == a[0] || Less(a[0].key, a[j].key)
  {
  }

  lemma FirstIsFirst<T(!new)>(a: seq<Entry<T>>, b: seq<Entry<T>>)
    requires Ascending(a) && Ascending(b) && |a| == |b| > 0 && forall x | x in a :: x in b
    ensures a[0] == b[0]
  {
    EntriesFill(a, b);
    assert a[0] in a && b[0] in b;
    var j :| 0 <= j < |a| && a[j] == b[0];
    var k :| 0 <= k < |b| && b[k] == a[0];
    LessIsTotal(a[0].key, b[0].key);
    FirstIsLeast(a, j);
    FirstIsLeast(b, k);
  }

  /** Both lists have as many distinct entries, so b holds nothing more than a. */
  lemma EntriesFill<T(!new)>(a: seq<Entry<T>>, b: seq<Entry<T>>)
    requires Ascending(a) && Ascending(b) && |a| == |b| && forall x | x in a :: x in b
    ensures forall x | x in b :: x in a
  {
    SizeOfAscending(a);
    SizeOfAscending(b);
    var inA := set x | x in a;
    SubsetAsLarge(inA, set x | x in b);
    assert forall x | x in b :: x in inA;
  }

  lemma {:induction false} SizeOfAscending<T(!new)>(s: seq<Entry<T>>)
    requires Ascending(s)
    ensures |set x | x in s| == |s|
  {
    if s != [] {
      var rest := s[1..];
      SizeOfAscending(rest);
      LessIsTotal(s[0].key, s[0].key);
      forall i | 0 <= i < |rest| ensures rest[i] != s[0] {
        assert Less(s[0].key, s[i + 1].key);
      }
      assert (set x | x in s) == (set x | x in rest) + {s[0]};
    }
  }
}

/** JSON string literals as JSON.stringify writes them, and a reader for them
    (section 7 of RFC 8259). */
module JsonStrings {
  import opened Wrappers
  import opened Positional

  /** The letter of a two-character escape. */
  function EscapeLetter(c: char): Option<char> {
    var n := c as int;
    if n == 0x22 then Some('\"') else if n == 0x5C then Some('\\') else if n == 8 then Some('b')
    else if n == 12 then Some('f') else if n == 10 then Some('n') else if n == 13 then Some('r')
    else if n == 9 then Some('t') else None
  }

  function Unescape(letter: char): Option<char> {
    if letter == '\"' || letter == '\\' || letter == '/' then Some(letter)
    else if letter == 'b' then Some(8 as char) else if letter == 'f' then Some(12 as char)
    else if letter == 'n' then Some(10 as char) else if letter == 'r' then Some(13 as char)
    else if letter == 't' then Some(9 as char) else None
  }

  function EscapeChar(c: char): (s: string)
    ensures |s| >= 1 && s[0] != '\"'
  {
    match EscapeLetter(c)
    case Some(letter) => ['\\', letter]
    case None =>
      var n := c as nat;
      if n < 0x20 then ['\\', 'u', '0', '0', HexDigit(n / 16), HexDigit(n % 16)] else [c]
  }

  function Escape(s: string): string {
    if s == [] then [] else EscapeChar(s[0]) + Escape(s[1..])
  }

  function Quote(s: string): string {
    ['\"'] + Escape(s) + ['\"']
  }

  /** Four hex digits as a character; surrogates name none. */
  function FourHex(a: char, b: char, c: char, d: char): Option<char> {
    var p, q, r, s := HexDigitValue(a), HexDigitValue(b), HexDigitValue(c), HexDigitValue(d);
    if p.None? || q.None? || r.None? || s.None? then None
    else
      var n := 4096 * p.value + 256 * q.value + 16 * r.value + s.value;
      if 0xD800 <= n < 0xE000 then None else Some(n as char)
  }

  /** Read one possibly escaped character. */
  function ReadChar(s: string): (r: Option<(char, string)>)
    ensures r.Some? ==> |r.value.1| < |s|
  {
    if s == [] || s[0] == '\"' || s[0] as int < 0x20 then None
    else if s[0] != '\\' then Some((s[0], s[1..]))
    else if |s| < 2 then None
    else if s[1] == 'u' then
      if |s| < 6 then None
      else
        match FourHex(s[2], s[3], s[4], s[5])
        case None => None
        case Some(c) => Some((c, s[6..]))
    else
      match Unescape(s[1])
      case None => None
      case Some(c) => Some((c, s[2..]))
  }

  /** Read up to the closing quote. */
  function ReadChars(s: string): (r: Option<(string, string)>)
    ensures r.Some? ==> |r.value.1| < |s|
    decreases |s|
  {
    if s != [] && s[0] == '\"' then Some(([], s[1..]))
    else
      match ReadChar(s)
      case None => None
      case Some((c, rest)) =>
        match ReadChars(rest)
        case None => None
        case Some((cs, rest')) => Some(([c] + cs, rest'))
  }

  function ReadString(s: string): (r: Option<(string, string)>)
    ensures r.Some? ==> |r.value.1| < |s|
  {
    if s == [] || s[0] != '\"' then None else ReadChars(s[1..])
  }

  lemma LetterRoundTrip(c: char)
    requires EscapeLetter(c).Some?
    ensures Unescape(EscapeLetter(c).value) == Some(c) && EscapeLetter(c).value != 'u'
  {
  }

  lemma ControlRoundTrip(c: char)
    requires c as int < 0x20
    ensures FourHex('0', '0', HexDigit(c as nat / 16), HexDigit(c as nat % 16)) == Some(c)
  {
    HexDigitRoundTrip(c as nat / 16);
    HexDigitRoundTrip(c as nat % 16);
  }

  lemma ReadOfEscapeChar(c: char, rest: string)
    ensures ReadChar(EscapeChar(c) + rest) == Some((c, rest))
  {
    var e := EscapeChar(c);
    var s := e + rest;
    assert s[|e|..] == rest;
    if EscapeLetter(c).Some? {
      LetterRoundTrip(c);
    } else if c as int < 0x20 {
      ControlRoundTrip(c);
    }
  }

  lemma {:induction false} ReadOfEscape(s: string, rest: string)
    ensures ReadChars(Escape(s) + ['\"'] + rest) == Some((s, rest))
  {
    if s == [] {
      assert (Escape(s) + ['\"'] + rest)[1..] == rest;
    } else {
      var tail := Escape(s[1..]) + ['\"'] + rest;
      assert Escape(s) + ['\"'] + rest == EscapeChar(s[0]) + tail;
      ReadOfEscapeChar(s[0], tail);
      ReadOfEscape(s[1..], rest);
      assert s == [s[0]] + s[1..];
    }
  }

  /** A quoted string reads back, whatever follows it. */
  lemma ReadOfQuote(s: string, rest: string)
    ensures ReadString(Quote(s) + rest) == Some((s, rest))
  {
    ReadOfEscape(s, rest);
    assert (Quote(s) + rest)[1..] == Escape(s) + ['\"'] + rest;
  }
}

/** The key-sorted serialization behind the batch checksum, and a parser that inverts it. */
module CanonicalJson {
  import opened Wrappers
  import opened SortedEntries
  import opened JsonStrings

  /** JSON values; a number is its decimal text, an object its fields in insertion order. */
  datatype Json =
    | Undefined
    | Null
    | Bool(b: bool)
    | Number(text: string)
    | Str(s: string)
    | Arr(elems: seq<Json>)
    | Obj(fields: seq<Entry<Json>>)

  predicate IsNumberChar(c: char) {
    '0' <= c <= '9' || c == '-' || c == '+' || c == '.' || c == 'e' || c == 'E'
  }

  /** Text that starts like a number and holds number characters only. */
  predicate IsNumberText(t: string) {
    t != [] && ('0' <= t[0] <= '9' || t[0] == '-') && forall i | 0 <= i < |t| :: IsNumberChar(t[i])
  }

  predicate WellFormed(v: Json)
    decreases v
  {
    match v
    case Number(text) => IsNumberText(text)
    case Arr(elems) => forall i | 0 <= i < |elems| :: WellFormed(elems[i])
    case Obj(fields) => DistinctKeys(fields) && forall i | 0 <= i < |fields| :: WellFormed(fields[i].value)
    case _ => true
  }

  // ---- serialization

  function Serialize(v: Json): string
    decreases v, 1
  {
    match v
    case Undefined => "null"
    case Null => "null"
    case Bool(b) => if b then "true" else "false"
    case Number(text) => text
    case Str(s) => Quote(s)
    case Arr(elems) => ['['] + ElemsText(elems) + [']']
    case Obj(fields) =>
      var sorted := Sort(SerializeFields(fields));
      ['{'] + KeysText(sorted) + ValuesText(sorted) + ['}']
  }

  function ElemsText(elems: seq<Json>): string
    decreases elems, 0
  {
    if elems == [] then []
    else if |elems| == 1 then Serialize(elems[0])
    else Serialize(elems[0]) + [','] + ElemsText(elems[1..])
  }

  /** Each field with its value already serialized. */
  function SerializeFields(fields: seq<Entry<Json>>): (r: seq<Entry<string>>)
    ensures |r| == |fields|
    ensures forall i | 0 <= i < |r| :: r[i].key == fields[i].key
    decreases fields, 0
  {
    if fields == [] then []
    else [Entry(fields[0].key, Serialize(fields[0].value))] + SerializeFields(fields[1..])
  }

  function QuotedKeys(fields: seq<Entry<string>>): string {
    if fields == [] then []
    else if |fields| == 1 then Quote(fields[0].key)
    else Quote(fields[0].key) + [','] + QuotedKeys(fields[1..])
  }

  function KeysText(fields: seq<Entry<string>>): string {
    ['['] + QuotedKeys(fields) + [']']
  }

  function ValuesText(fields: seq<Entry<string>>): string {
    if fields == [] then [] else fields[0].value + [','] + ValuesText(fields[1..])
  }

  // ---- canonical form: keys sorted at every level, undefined read as null

  function Canon(v: Json): Json
    decreases v, 1
  {
    match v
    case Undefined => Null
    case Arr(elems) => Arr(CanonElems(elems))
    case Obj(fields) => Obj(Sort(CanonFields(fields)))
    case _ => v
  }

  function CanonElems(elems: seq<Json>): (r: seq<Json>)
    ensures |r| == |elems|
    decreases elems, 0
  {
    if elems == [] then [] else [Canon(elems[0])] + CanonElems(elems[1..])
  }

  function CanonFields(fields: seq<Entry<Json>>): (r: seq<Entry<Json>>)
    ensures |r| == |fields|
    ensures forall i | 0 <= i < |r| :: r[i].key == fields[i].key
    decreases fields, 0
  {
    if fields == [] then []
    else [Entry(fields[0].key, Canon(fields[0].value))] + CanonFields(fields[1..])
  }

  // ---- parser

  /** The longest run of number characters. */
  function NumberRun(s: string): (n: nat)
    ensures n <= |s|
  {
    if s == [] || !IsNumberChar(s[0]) then 0 else 1 + NumberRun(s[1..])
  }

  function ReadLiteral(s: string, word: string, v: Json): (r: Option<(Json, string)>)
    requires word != []
    ensures r.Some? ==> |r.value.1| < |s|
  {
    if |s| >= |word| && s[..|word|] == word then Some((v, s[|word|..])) else None
  }

  function ReadNumber(s: string): (r: Option<(Json, string)>)
    ensures r.Some? ==> |r.value.1| < |s|
  {
    var n := NumberRun(s);
    if n == 0 || !IsNumberText(s[..n]) then None else Some((Number(s[..n]), s[n..]))
  }

  function ReadValue(s: string): (r: Option<(Json, string)>)
    ensures r.Some? ==> |r.value.1| < |s|
    decreases |s|, 1
  {
    if s == [] then None
    else if s[0] == '\"' then
      match ReadString(s)
      case None => None
      case Some((text, rest)) => Some((Str(text), rest))
    else if s[0] == '[' then
      if |s| > 1 && s[1] == ']' then Some((Arr([]), s[2..]))
      else
        match ReadElems(s[1..])
        case None => None
        case Some((elems, rest)) => Some((Arr(elems), rest))
    else if s[0] == '{' then ReadObject(s)
    else if s[0] == 'n' then ReadLiteral(s, "null", Null)
    else if s[0] == 't' then ReadLiteral(s, "true", Bool(true))
    else if s[0] == 'f' then ReadLiteral(s, "false", Bool(false))
    else ReadNumber(s)
  }

  /** The keys, then one value for each. */
  function ReadObject(s: string): (r: Option<(Json, string)>)
    requires s != []
    ensures r.Some? ==> |r.value.1| < |s|
    decreases |s|, 0
  {
    match ReadKeys(s[1..])
    case None => None
    case Some((keys, rest)) =>
      match ReadFields(keys, rest)
      case None => None
      case Some((fields, rest')) => Some((Obj(fields), rest'))
  }

  /** Elements up to the closing bracket. */
  function ReadElems(s: string): (r: Option<(seq<Json>, string)>)
    ensures r.Some? ==> |r.value.1| < |s|
    decreases |s|, 2
  {
    match ReadValue(s)
    case None => None
    case Some((v, rest)) =>
      if rest != [] && rest[0] == ']' then Some(([v], rest[1..]))
      else if rest != [] && rest[0] == ',' then
        match ReadElems(rest[1..])
        case None => None
        case Some((vs, rest')) => Some(([v] + vs, rest'))
      else None
  }

  /** Quoted keys up to the closing bracket. */
  function ReadQuotedKeys(s: string): (r: Option<(seq<string>, string)>)
    ensures r.Some? ==> |r.value.1| < |s|
    decreases |s|
  {
    match ReadString(s)
    case None => None
    case Some((key, rest)) =>
      if rest != [] && rest[0] == ']' then Some(([key], rest[1..]))
      else if rest != [] && rest[0] == ',' then
        match ReadQuotedKeys(rest[1..])
        case None => None
        case Some((keys, rest')) => Some(([key] + keys, rest'))
      else None
  }

  function ReadKeys(s: string): (r: Option<(seq<string>, string)>)
    ensures r.Some? ==> |r.value.1| < |s|
  {
    if s == [] || s[0] != '[' then None
    else if |s| > 1 && s[1] == ']' then Some(([], s[2..]))
    else ReadQuotedKeys(s[1..])
  }

  /** A value and a comma for every key, then the closing brace. */
  function ReadFields(keys: seq<string>, s: string): (r: Option<(seq<Entry<Json>>, string)>)
    ensures r.Some? ==> |r.value.1| < |s|
    decreases |s|, 2
  {
    if keys == [] then if s != [] && s[0] == '}' then Some(([], s[1..])) else None
    else
      match ReadValue(s)
      case None => None
      case Some((v, rest)) =>
        if rest == [] || rest[0] != ',' then None
        else
          match ReadFields(keys[1..], rest[1..])
          case None => None
          case Some((fields, rest')) => Some(([Entry(keys[0], v)] + fields, rest'))
  }

  function Parse(s: string): Option<Json> {
    match ReadValue(s)
    case Some((v, rest)) => if rest == [] then Some(v) else None
    case None => None
  }

  // ---- the parser inverts the serializer

  predicate Ends(rest: string) {
    rest == [] || !IsNumberChar(rest[0])
  }

  /** The text reads as the value, whatever follows that is no part of a number. */
  ghost predicate Reads(text: string, v: Json) {
    forall rest :: Ends(rest) ==> ReadValue(text + rest) == Some((v, rest))
  }

  lemma {:induction false} NumberRunStops(t: string, rest: string)
    requires (forall i | 0 <= i < |t| :: IsNumberChar(t[i])) && Ends(rest)
    ensures NumberRun(t + rest) == |t|
  {
    if t == [] {
      assert t + rest == rest;
    } else {
      assert (t + rest)[1..] == t[1..] + rest;
      NumberRunStops(t[1..], rest);
    }
  }

  lemma NumberReads(t: string)
    requires IsNumberText(t)
    ensures Reads(t, Number(t))
  {
    forall rest | Ends(rest) ensures ReadValue(t + rest) == Some((Number(t), rest)) {
      var s := t + rest;
      NumberRunStops(t, rest);
      assert s[..|t|] == t && s[|t|..] == rest && s[0] == t[0];
    }
  }

  lemma WordReads(word: string, v: Json)
    requires (word == "null" && v == Null) || (word == "true" && v == Bool(true)) || (word == "false" && v == Bool(false))
    ensures Reads(word, v)
  {
    forall rest | Ends(rest) ensures ReadValue(word + rest) == Some((v, rest)) {
      var s := word + rest;
      assert s[0] == word[0] && s[..|word|] == word && s[|word|..] == rest;
    }
  }

  lemma StringReads(text: string)
    ensures Reads(Quote(text), Str(text))
  {
    forall rest | Ends(rest) ensures ReadValue(Quote(text) + rest) == Some((Str(text), rest)) {
      ReadOfQuote(text, rest);
      assert (Quote(text) + rest)[0] == '\"';
    }
  }

  lemma SerializeStarts(v: Json)
    requires WellFormed(v)
    ensures Serialize(v) != [] && Serialize(v)[0] != ']'
  {
  }

  lemma ElemsTextStarts(elems: seq<Json>)
    requires elems != [] && WellFormed(elems[0])
    ensures ElemsText(elems) != [] && ElemsText(elems)[0] != ']'
  {
    SerializeStarts(elems[0]);
  }

  lemma Regroup3(a: string, b: string, c: string)
    ensures a + b + c == a + (b + c)
  {
  }

  lemma Regroup4(a: string, b: string, c: string, d: string)
    ensures a + b + c + d == a + (b + c + d)
  {
  }

  lemma Regroup5(a: string, b: string, c: string, d: string, e: string)
    ensures a + b + c + d + e == a + (b + (c + d + e))
  {
  }

  lemma LastElemReads(text: string, v: Json, rest: string)
    requires Reads(text, v)
    ensures ReadElems(text + ([']'] + rest)) == Some(([v], rest))
  {
    var tail := [']'] + rest;
    assert ReadValue(text + tail) == Some((v, tail));
    assert tail[1..] == rest;
  }

  lemma NextElemReads(text: string, v: Json, more: string)
    requires Reads(text, v) && ReadElems(more).Some?
    ensures ReadElems(text + ([','] + more)) == Some(([v] + ReadElems(more).value.0, ReadElems(more).value.1))
  {
    var tail := [','] + more;
    assert ReadValue(text + tail) == Some((v, tail));
    assert tail[1..] == more;
  }

  lemma {:induction false} ElemsRead(elems: seq<Json>, rest: string)
    requires elems != [] && forall i | 0 <= i < |elems| :: Reads(Serialize(elems[i]), Canon(elems[i]))
    ensures ReadElems(ElemsText(elems) + [']'] + rest) == Some((CanonElems(elems), rest))
  {
    var first := Serialize(elems[0]);
    assert Reads(first, Canon(elems[0]));
    if |elems| == 1 {
      LastElemReads(first, Canon(elems[0]), rest);
      Regroup3(first, [']'], rest);
      assert CanonElems(elems) == [Canon(elems[0])] + CanonElems(elems[1..]) == [Canon(elems[0])];
    } else {
      var more := ElemsText(elems[1..]) + [']'] + rest;
      ElemsRead(elems[1..], rest);
      NextElemReads(first, Canon(elems[0]), more);
      Regroup5(first, [','], ElemsText(elems[1..]), [']'], rest);
    }
  }

  function Keys<T>(fields: seq<Entry<T>>): (r: seq<string>)
    ensures |r| == |fields|
  {
    seq(|fields|, i requires 0 <= i < |fields| => fields[i].key)
  }

  lemma KeysSplit<T>(fields: seq<Entry<T>>)
    requires fields != []
    ensures Keys(fields) == [fields[0].key] + Keys(fields[1..])
  {
  }

  lemma LastKeyReads(key: string, rest: string)
    ensures ReadQuotedKeys(Quote(key) + ([']'] + rest)) == Some(([key], rest))
  {
    var tail := [']'] + rest;
    ReadOfQuote(key, tail);
    assert tail[1..] == rest;
  }

  lemma NextKeyReads(key: string, more: string)
    requires ReadQuotedKeys(more).Some?
    ensures ReadQuotedKeys(Quote(key) + ([','] + more))
         == Some(([key] + ReadQuotedKeys(more).value.0, ReadQuotedKeys(more).value.1))
  {
    var tail := [','] + more;
    ReadOfQuote(key, tail);
    assert tail[1..] == more;
  }

  lemma {:induction false} QuotedKeysRead(fields: seq<Entry<string>>, rest: string)
    requires fields != []
    ensures ReadQuotedKeys(QuotedKeys(fields) + [']'] + rest) == Some((Keys(fields), rest))
  {
    var key := fields[0].key;
    if |fields| == 1 {
      LastKeyReads(key, rest);
      Regroup3(Quote(key), [']'], rest);
      assert Keys(fields) == [key];
    } else {
      var more := QuotedKeys(fields[1..]) + [']'] + rest;
      QuotedKeysRead(fields[1..], rest);
      NextKeyReads(key, more);
      Regroup5(Quote(key), [','], QuotedKeys(fields[1..]), [']'], rest);
      KeysSplit(fields);
    }
  }

  lemma KeysRead(fields: seq<Entry<string>>, rest: string)
    ensures ReadKeys(KeysText(fields) + rest) == Some((Keys(fields), rest))
  {
    var s := KeysText(fields) + rest;
    if fields == [] {
      assert s == ['[', ']'] + rest && s[2..] == rest;
    } else {
      QuotedKeysRead(fields, rest);
      assert s[1..] == QuotedKeys(fields) + [']'] + rest;
      assert QuotedKeys(fields)[0] == '\"';
    }
  }

  /** Serialized fields next to their canonical values, in one order. */
  ghost predicate Paired(texts: seq<Entry<string>>, values: seq<Entry<Json>>) {
    && |texts| == |values|
    && forall i | 0 <= i < |texts| :: texts[i].key == values[i].key && Reads(texts[i].value, values[i].value)
  }

  lemma NextFieldReads(key: string, keys: seq<string>, text: string, v: Json, more: string)
    requires Reads(text, v) && ReadFields(keys, more).Some?
    ensures ReadFields([key] + keys, text + ([','] + more))
         == Some(([Entry(key, v)] + ReadFields(keys, more).value.0, ReadFields(keys, more).value.1))
  {
    var tail := [','] + more;
    assert ReadValue(text + tail) == Some((v, tail));
    assert tail[1..] == more && ([key] + keys)[1..] == keys;
  }

  lemma NoFieldsRead(rest: string)
    ensures ReadFields([], ['}'] + rest) == Some(([], rest))
  {
    assert (['}'] + rest)[1..] == rest;
  }

  lemma {:induction false} FieldsRead(texts: seq<Entry<string>>, values: seq<Entry<Json>>, rest: string)
    requires Paired(texts, values)
    ensures ReadFields(Keys(texts), ValuesText(texts) + ['}'] + rest) == Some((values, rest))
  {
    if texts == [] {
      NoFieldsRead(rest);
      Regroup3([], ['}'], rest);
    } else {
      var more := ValuesText(texts[1..]) + ['}'] + rest;
      FieldsRead(texts[1..], values[1..], rest);
      NextFieldReads(texts[0].key, Keys(texts[1..]), texts[0].value, values[0].value, more);
      KeysSplit(texts);
      Regroup5(texts[0].value, [','], ValuesText(texts[1..]), ['}'], rest);
      assert values == [values[0]] + values[1..];
    }
  }

  lemma PairedCons(t: Entry<string>, v: Entry<Json>, texts: seq<Entry<string>>, values: seq<Entry<Json>>)
    requires Paired(texts, values) && t.key == v.key && Reads(t.value, v.value)
    ensures Paired([t] + texts, [v] + values)
  {
  }

  lemma {:induction false} InsertKeepsPairs(t: Entry<string>, v: Entry<Json>, texts: seq<Entry<string>>, values: seq<Entry<Json>>)
    requires Paired(texts, values) && t.key == v.key && Reads(t.value, v.value)
    ensures Paired(Insert(t, texts), Insert(v, values))
  {
    if texts == [] || Less(t.key, texts[0].key) {
      PairedCons(t, v, texts, values);
    } else {
      InsertKeepsPairs(t, v, texts[1..], values[1..]);
      PairedCons(texts[0], values[0], Insert(t, texts[1..]), Insert(v, values[1..]));
    }
  }

  lemma {:induction false} SortKeepsPairs(texts: seq<Entry<string>>, values: seq<Entry<Json>>)
    requires Paired(texts, values)
    ensures Paired(Sort(texts), Sort(values))
  {
    if texts != [] {
      SortKeepsPairs(texts[1..], values[1..]);
      InsertKeepsPairs(texts[0], values[0], Sort(texts[1..]), Sort(values[1..]));
    }
  }

  lemma ObjectTextReads(texts: seq<Entry<string>>, values: seq<Entry<Json>>, rest: string)
    requires Paired(texts, values)
    ensures ReadValue(['{'] + (KeysText(texts) + (ValuesText(texts) + ['}'] + rest))) == Some((Obj(values), rest))
  {
    var tail := ValuesText(texts) + ['}'] + rest;
    var s := ['{'] + (KeysText(texts) + tail);
    KeysRead(texts, tail);
    FieldsRead(texts, values, rest);
    assert s[1..] == KeysText(texts) + tail;
    assert ReadObject(s) == Some((Obj(values), rest));
  }

  lemma ObjectReads(fields: seq<Entry<Json>>)
    requires Paired(SerializeFields(fields), CanonFields(fields))
    ensures Reads(Serialize(Obj(fields)), Canon(Obj(fields)))
  {
    var texts, values := Sort(SerializeFields(fields)), Sort(CanonFields(fields));
    SortKeepsPairs(SerializeFields(fields), CanonFields(fields));
    forall rest | Ends(rest)
      ensures ReadValue(Serialize(Obj(fields)) + rest) == Some((Canon(Obj(fields)), rest))
    {
      ObjectTextReads(texts, values, rest);
      Regroup5(['{'], KeysText(texts), ValuesText(texts), ['}'], rest);
    }
  }

  lemma EmptyArrayReads(rest: string)
    ensures ReadValue(['[', ']'] + rest) == Some((Arr([]), rest))
  {
    assert (['[', ']'] + rest)[2..] == rest;
  }

  lemma ArrayTextReads(elems: seq<Json>, rest: string)
    requires elems != [] && WellFormed(elems[0])
    requires forall i | 0 <= i < |elems| :: Reads(Serialize(elems[i]), Canon(elems[i]))
    ensures ReadValue(['['] + (ElemsText(elems) + [']'] + rest)) == Some((Arr(CanonElems(elems)), rest))
  {
    var s := ['['] + (ElemsText(elems) + [']'] + rest);
    ElemsTextStarts(elems);
    ElemsRead(elems, rest);
    assert s[1..] == ElemsText(elems) + [']'] + rest;
    assert s[1] == ElemsText(elems)[0];
  }

  lemma ArrayReads(elems: seq<Json>)
    requires forall i | 0 <= i < |elems| :: WellFormed(elems[i]) && Reads(Serialize(elems[i]), Canon(elems[i]))
    ensures Reads(Serialize(Arr(elems)), Canon(Arr(elems)))
  {
    forall rest | Ends(rest)
      ensures ReadValue(Serialize(Arr(elems)) + rest) == Some((Canon(Arr(elems)), rest))
    {
      if elems == [] {
        EmptyArrayReads(rest);
        assert ['['] + [] + [']'] == ['[', ']'];
      } else {
        ArrayTextReads(elems, rest);
        Regroup4(['['], ElemsText(elems), [']'], rest);
      }
    }
  }

  /** Every well-formed value's text reads as the value, its keys sorted. */
  lemma {:induction false} SerializedReads(v: Json)
    requires WellFormed(v)
    ensures Reads(Serialize(v), Canon(v))
    decreases v, 1
  {
    match v {
      case Undefined => WordReads("null", Null);
      case Null => WordReads("null", Null);
      case Bool(b) => WordReads(if b then "true" else "false", v);
      case Number(text) => NumberReads(text);
      case Str(text) => StringReads(text);
      case Arr(elems) =>
        forall i | 0 <= i < |elems| ensures Reads(Serialize(elems[i]), Canon(elems[i])) {
          SerializedReads(elems[i]);
        }
        ArrayReads(elems);
      case Obj(fields) =>
        FieldsPair(fields);
        ObjectReads(fields);
    }
  }

  lemma {:induction false} FieldsPair(fields: seq<Entry<Json>>)
    requires forall i | 0 <= i < |fields| :: WellFormed(fields[i].value)
    ensures Paired(SerializeFields(fields), CanonFields(fields))
    decreases fields, 0
  {
    if fields != [] {
      SerializedReads(fields[0].value);
      FieldsPair(fields[1..]);
    }
  }

  /** The inverse: parsing recovers every value up to key order. */
  lemma ParseOfSerialize(v: Json)
    requires WellFormed(v)
    ensures Parse(Serialize(v)) == Some(Canon(v))
  {
    SerializedReads(v);
    assert Ends([]);
    assert Serialize(v) + [] == Serialize(v);
  }

  // ---- the text depends on the value up to key order, and on nothing else

  /** Equal up to the order of keys, with undefined read as null. */
  ghost predicate Same(v: Json, w: Json)
    decreases v, 1
  {
    match v
    case Undefined => w == Null || w == Undefined
    case Null => w == Null || w == Undefined
    case Arr(elems) =>
      w.Arr? && |elems| == |w.elems| && forall i | 0 <= i < |elems| :: Same(elems[i], w.elems[i])
    case Obj(fields) =>
      w.Obj? && |fields| == |w.fields| && FieldsSame(fields, w.fields)
    case _ => v == w
  }

  /** Every field of the first list has a field of the same key and value in the second. */
  ghost predicate FieldsSame(f: seq<Entry<Json>>, g: seq<Entry<Json>>)
    decreases f, 0
  {
    forall i | 0 <= i < |f| :: exists j | 0 <= j < |g| :: f[i].key == g[j].key && Same(f[i].value, g[j].value)
  }

  lemma {:induction false} CanonFieldsAt(fields: seq<Entry<Json>>, i: nat)
    requires i < |fields|
    ensures CanonFields(fields)[i] == Entry(fields[i].key, Canon(fields[i].value))
  {
    if i > 0 {
      CanonFieldsAt(fields[1..], i - 1);
    }
  }

  lemma {:induction false} CanonElemsAt(elems: seq<Json>, i: nat)
    requires i < |elems|
    ensures CanonElems(elems)[i] == Canon(elems[i])
  {
    if i > 0 {
      CanonElemsAt(elems[1..], i - 1);
    }
  }

  /** Every canonical field of one object is one of the other's. */
  ghost predicate CanonInside(f: seq<Entry<Json>>, g: seq<Entry<Json>>) {
    forall x | x in CanonFields(f) :: x in CanonFields(g)
  }

  lemma SortedAreSame(f: seq<Entry<Json>>, g: seq<Entry<Json>>)
    requires DistinctKeys(f) && DistinctKeys(g)
    ensures Sort(CanonFields(f)) == Sort(CanonFields(g)) <==> |f| == |g| && CanonInside(f, g)
  {
    var a, b := Sort(CanonFields(f)), Sort(CanonFields(g));
    if |f| == |g| && CanonInside(f, g) {
      SortAscends(CanonFields(f));
      SortAscends(CanonFields(g));
      AscendingIsUnique(a, b);
    }
    if a == b {
      forall x | x in CanonFields(f) ensures x in CanonFields(g) {
        assert x in a && x in b;
      }
    }
  }

  lemma FieldsMatchIffInside(f: seq<Entry<Json>>, g: seq<Entry<Json>>)
    requires forall i, j | 0 <= i < |f| && 0 <= j < |g| :: Same(f[i].value, g[j].value) <==> Canon(f[i].value) == Canon(g[j].value)
    ensures CanonInside(f, g) <==> FieldsSame(f, g)
  {
    forall i | 0 <= i < |f|
      ensures CanonFields(f)[i] in CanonFields(g) <==>
                exists j | 0 <= j < |g| :: f[i].key == g[j].key && Same(f[i].value, g[j].value)
    {
      CanonFieldsAt(f, i);
      if CanonFields(f)[i] in CanonFields(g) {
        var j :| 0 <= j < |g| && CanonFields(g)[j] == CanonFields(f)[i];
        CanonFieldsAt(g, j);
      }
      if j :| 0 <= j < |g| && f[i].key == g[j].key && Same(f[i].value, g[j].value) {
        CanonFieldsAt(g, j);
        assert CanonFields(g)[j] in CanonFields(g);
      }
    }
    if CanonInside(f, g) {
      forall i | 0 <= i < |f| ensures CanonFields(f)[i] in CanonFields(g) {
        assert CanonFields(f)[i] in CanonFields(f);
      }
    }
  }

  lemma ArraysMatch(a: seq<Json>, b: seq<Json>)
    requires |a| == |b| && forall i | 0 <= i < |a| :: Same(a[i], b[i]) <==> Canon(a[i]) == Canon(b[i])
    ensures CanonElems(a) == CanonElems(b) <==> forall i | 0 <= i < |a| :: Same(a[i], b[i])
  {
    forall i | 0 <= i < |a|
      ensures CanonElems(a)[i] == CanonElems(b)[i] <==> Same(a[i], b[i])
    {
      CanonElemsAt(a, i);
      CanonElemsAt(b, i);
    }
  }

  lemma ObjectsMatch(f: seq<Entry<Json>>, g: seq<Entry<Json>>)
    requires DistinctKeys(f) && DistinctKeys(g)
    requires forall i, j | 0 <= i < |f| && 0 <= j < |g| :: Same(f[i].value, g[j].value) <==> Canon(f[i].value) == Canon(g[j].value)
    ensures Canon(Obj(f)) == Canon(Obj(g)) <==> Same(Obj(f), Obj(g))
  {
    FieldsMatchIffInside(f, g);
    SortedAreSame(f, g);
  }

  /** Values have one canonical form exactly when they are equal up to key order. */
  lemma {:induction false} CanonIffSame(v: Json, w: Json)
    requires WellFormed(v) && WellFormed(w)
    ensures Canon(v) == Canon(w) <==> Same(v, w)
    decreases v
  {
    if v.Arr? && w.Arr? {
      if |v.elems| == |w.elems| {
        forall i | 0 <= i < |v.elems| ensures Same(v.elems[i], w.elems[i]) <==> Canon(v.elems[i]) == Canon(w.elems[i]) {
          CanonIffSame(v.elems[i], w.elems[i]);
        }
        ArraysMatch(v.elems, w.elems);
      }
    } else if v.Obj? && w.Obj? {
      forall i, j | 0 <= i < |v.fields| && 0 <= j < |w.fields|
        ensures Same(v.fields[i].value, w.fields[j].value) <==> Canon(v.fields[i].value) == Canon(w.fields[j].value)
      {
        CanonIffSame(v.fields[i].value, w.fields[j].value);
      }
      ObjectsMatch(v.fields, w.fields);
    }
  }

  // ---- the text of a value is the text of its canonical form

  lemma {:induction false} SerializeFieldsOfInsert(e: Entry<Json>, s: seq<Entry<Json>>)
    ensures SerializeFields(Insert(e, s)) == Insert(Entry(e.key, Serialize(e.value)), SerializeFields(s))
  {
    if s != [] {
      SerializeFieldsOfInsert(e, s[1..]);
      if Less(e.key, s[0].key) {
        assert Insert(e, s)[1..] == s;
      } else {
        assert Insert(e, s)[1..] == Insert(e, s[1..]);
      }
    }
  }

  lemma {:induction false} SerializeFieldsOfSort(s: seq<Entry<Json>>)
    ensures SerializeFields(Sort(s)) == Sort(SerializeFields(s))
  {
    if s != [] {
      SerializeFieldsOfSort(s[1..]);
      SerializeFieldsOfInsert(s[0], Sort(s[1..]));
    }
  }

  lemma {:induction false} TextOfCanon(v: Json)
    requires WellFormed(v)
    ensures Serialize(Canon(v)) == Serialize(v)
    decreases v, 1
  {
    match v {
      case Arr(elems) => ElemsTextOfCanon(elems);
      case Obj(fields) => ObjectTextOfCanon(fields);
      case _ =>
    }
  }

  lemma ObjectTextOfCanon(fields: seq<Entry<Json>>)
    requires DistinctKeys(fields) && forall i | 0 <= i < |fields| :: WellFormed(fields[i].value)
    ensures Serialize(Canon(Obj(fields))) == Serialize(Obj(fields))
    decreases fields, 1
  {
    var texts, canon := SerializeFields(fields), CanonFields(fields);
    FieldTextsOfCanon(fields);
    SerializeFieldsOfSort(canon);
    SortAscends(texts);
    SortOfAscending(Sort(texts));
  }

  lemma {:induction false} FieldTextsOfCanon(fields: seq<Entry<Json>>)
    requires forall i | 0 <= i < |fields| :: WellFormed(fields[i].value)
    ensures SerializeFields(CanonFields(fields)) == SerializeFields(fields)
    decreases fields, 0
  {
    if fields != [] {
      TextOfCanon(fields[0].value);
      FieldTextsOfCanon(fields[1..]);
    }
  }

  lemma {:induction false} ElemsTextOfCanon(elems: seq<Json>)
    requires forall i | 0 <= i < |elems| :: WellFormed(elems[i])
    ensures ElemsText(CanonElems(elems)) == ElemsText(elems)
    decreases elems, 0
  {
    if elems != [] {
      TextOfCanon(elems[0]);
      ElemsTextOfCanon(elems[1..]);
    }
  }

  /** Same text exactly when the values are equal up to key order: insertion order never shows. */
  lemma SameTextIffSame(v: Json, w: Json)
    requires WellFormed(v) && WellFormed(w)
    ensures Serialize(v) == Serialize(w) <==> Same(v, w)
  {
    CanonIffSame(v, w);
    ParseOfSerialize(v);
    ParseOfSerialize(w);
    TextOfCanon(v);
    TextOfCanon(w);
  }
}
