/**
 The text of an activity cursor (server/internal/route/activity.go): three fields joined
 by bars, in unpadded URL-safe base64, and the feed as it is read through such texts.
 Characters stand for the bytes of ASCII text.
 */
module ActivityCursor {
  import opened Wrappers
  import opened Activity

  type Byte = n: nat | n < 256
  type Sextet = n: nat | n < 64

  // ---------------------------------------------------------------- base64

  /** The URL-safe alphabet: A-Z, a-z, 0-9, minus, underscore. */
  function Letter(n: Sextet): char {
    if n < 26 then ('A' as int + n) as char
    else if n < 52 then ('a' as int + n - 26) as char
    else if n < 62 then ('0' as int + n - 52) as char
    else if n == 62 then '-' else '_'
  }

  function Digit(c: char): Option<Sextet> {
    if 'A' <= c <= 'Z' then Some(c as int - 'A' as int)
    else if 'a' <= c <= 'z' then Some(c as int - 'a' as int + 26)
    else if '0' <= c <= '9' then Some(c as int - '0' as int + 52)
    else if c == '-' then Some(62) else if c == '_' then Some(63) else None
  }

  lemma LetterHasItsDigit(n: Sextet)
    ensures Digit(Letter(n)) == Some(n)
  {
  }

  function Digits(text: string): Option<seq<Sextet>> {
    if text == "" then Some([])
    else match Digit(text[0])
      case None => None
      case Some(d) => match Digits(text[1..])
        case None => None
        case Some(rest) => Some([d] + rest)
  }

  function First(a: Sextet, b: Sextet): Byte { a * 4 + b / 16 }

  function Second(b: Sextet, c: Sextet): Byte { b % 16 * 16 + c / 4 }

  function Third(c: Sextet, d: Sextet): Byte { c % 4 * 64 + d }

  /** A single left-over letter is an error; left-over bits are ignored. */
  function Bytes(digits: seq<Sextet>): Option<seq<Byte>> {
    if |digits| == 0 then Some([])
    else if |digits| == 1 then None
    else if |digits| == 2 then Some([First(digits[0], digits[1])])
    else if |digits| == 3 then Some([First(digits[0], digits[1]), Second(digits[1], digits[2])])
    else match Bytes(digits[4..])
      case None => None
      case Some(rest) => Some([First(digits[0], digits[1]), Second(digits[1], digits[2]), Third(digits[2], digits[3])] + rest)
  }

  function Decode(text: string): Option<seq<Byte>> {
    match Digits(text)
    case None => None
    case Some(digits) => Bytes(digits)
  }

  function High(a: Byte): Sextet { a / 4 }

  function Middle(a: Byte, b: Byte): Sextet { a % 4 * 16 + b / 16 }

  function Low(b: Byte, c: Byte): Sextet { b % 16 * 4 + c / 64 }

  function Rest(c: Byte): Sextet { c % 64 }

  function Sextets(bytes: seq<Byte>): seq<Sextet> {
    if |bytes| == 0 then []
    else if |bytes| == 1 then [High(bytes[0]), Middle(bytes[0], 0)]
    else if |bytes| == 2 then [High(bytes[0]), Middle(bytes[0], bytes[1]), Low(bytes[1], 0)]
    else [High(bytes[0]), Middle(bytes[0], bytes[1]), Low(bytes[1], bytes[2]), Rest(bytes[2])] + Sextets(bytes[3..])
  }

  function Letters(digits: seq<Sextet>): string {
    seq(|digits|, i requires 0 <= i < |digits| => Letter(digits[i]))
  }

  /** Three bytes are four letters; a rest of one or two bytes is two or three letters, without padding. */
  function Encode(bytes: seq<Byte>): string {
    Letters(Sextets(bytes))
  }

  lemma {:induction false} DigitsUndoLetters(digits: seq<Sextet>)
    ensures Digits(Letters(digits)) == Some(digits)
  {
    if digits != [] {
      LetterHasItsDigit(digits[0]);
      assert Letters(digits)[0] == Letter(digits[0]) && Letters(digits)[1..] == Letters(digits[1..]);
      DigitsUndoLetters(digits[1..]);
      assert [digits[0]] + digits[1..] == digits;
    }
  }

  lemma ThreeBytes(a: Byte, b: Byte, c: Byte)
    ensures First(High(a), Middle(a, b)) == a
    ensures Second(Middle(a, b), Low(b, c)) == b
    ensures Third(Low(b, c), Rest(c)) == c
  {
  }

  lemma {:induction false} BytesUndoSextets(bytes: seq<Byte>)
    ensures Bytes(Sextets(bytes)) == Some(bytes)
  {
    hide First, Second, Third, High, Middle, Low, Rest;
    if |bytes| == 1 {
      ThreeBytes(bytes[0], 0, 0);
      assert bytes == [bytes[0]];
    } else if |bytes| == 2 {
      ThreeBytes(bytes[0], bytes[1], 0);
      assert bytes == [bytes[0], bytes[1]];
    } else if |bytes| >= 3 {
      ThreeBytes(bytes[0], bytes[1], bytes[2]);
      BytesUndoSextets(bytes[3..]);
      assert Sextets(bytes)[4..] == Sextets(bytes[3..]);
      assert bytes == [bytes[0], bytes[1], bytes[2]] + bytes[3..];
    }
  }

  lemma DecodeUndoesEncode(bytes: seq<Byte>)
    ensures Decode(Encode(bytes)) == Some(bytes)
  {
    DigitsUndoLetters(Sextets(bytes));
    BytesUndoSextets(bytes);
  }

  // ---------------------------------------------------------------- the three fields

  const BAR: Byte := 124

  function Join(parts: seq<seq<Byte>>): seq<Byte> {
    if parts == [] then []
    else if |parts| == 1 then parts[0]
    else parts[0] + [BAR] + Join(parts[1..])
  }

  function Split(text: seq<Byte>): (parts: seq<seq<Byte>>)
    ensures parts != []
  {
    if text == [] then [[]]
    else
      var rest := Split(text[1..]);
      if text[0] == BAR then [[]] + rest else [[text[0]] + rest[0]] + rest[1..]
  }

  lemma {:induction false} SplitPlain(field: seq<Byte>)
    requires BAR !in field
    ensures Split(field) == [field]
  {
    if field != [] {
      SplitPlain(field[1..]);
      assert [field[0]] + field[1..] == field;
    }
  }

  lemma {:induction false} SplitFirst(field: seq<Byte>, rest: seq<Byte>)
    requires BAR !in field
    ensures Split(field + [BAR] + rest) == [field] + Split(rest)
  {
    var text := field + [BAR] + rest;
    if field == [] {
      assert text == [BAR] + rest && text[1..] == rest;
    } else {
      assert text[1..] == field[1..] + [BAR] + rest;
      SplitFirst(field[1..], rest);
      assert [field[0]] + field[1..] == field;
    }
  }

  /** Splitting undoes joining when no field holds a bar. */
  lemma {:induction false} SplitUndoesJoin(parts: seq<seq<Byte>>)
    requires parts != [] && forall p :: p in parts ==> BAR !in p
    ensures Split(Join(parts)) == parts
  {
    assert parts[0] in parts;
    if |parts| == 1 {
      SplitPlain(parts[0]);
    } else {
      assert forall p :: p in parts[1..] ==> p in parts;
      SplitUndoesJoin(parts[1..]);
      SplitFirst(parts[0], Join(parts[1..]));
    }
  }

  /** How the three fields are written and read back; reading fails on malformed text. */
  datatype Formats = Formats(showDate: int -> seq<Byte>, showTime: int -> seq<Byte>, showId: nat -> seq<Byte>,
                             readDate: seq<Byte> -> Option<int>, readTime: seq<Byte> -> Option<int>, readId: seq<Byte> -> Option<nat>)

  /** Written fields read back to themselves and contain no bar, as dates, timestamps and ids do. */
  ghost predicate RoundTrips(f: Formats) {
    && (forall d :: f.readDate(f.showDate(d)) == Some(d) && BAR !in f.showDate(d))
    && (forall t :: f.readTime(f.showTime(t)) == Some(t) && BAR !in f.showTime(t))
    && (forall i: nat :: f.readId(f.showId(i)) == Some(i) && BAR !in f.showId(i))
  }

  function EncodeCursor(f: Formats, c: Key): string {
    Encode(Join([f.showDate(c.date), f.showTime(c.logged), f.showId(c.id)]))
  }

  lemma JoinFirst(head: seq<Byte>, tail: seq<seq<Byte>>)
    requires tail != []
    ensures Join([head] + tail) == head + [BAR] + Join(tail)
  {
    assert ([head] + tail)[1..] == tail;
  }

  lemma Longer(b: Byte, field: seq<Byte>, rest: seq<Byte>)
    ensures ([b] + field) + [BAR] + rest == [b] + (field + [BAR] + rest)
  {
  }

  lemma JoinLonger(b: Byte, field: seq<Byte>, more: seq<seq<Byte>>)
    ensures Join([[b] + field] + more) == [b] + Join([field] + more)
  {
    if more == [] {
      assert [[b] + field] + more == [[b] + field] && [field] + more == [field];
    } else {
      hide Join;
      JoinFirst([b] + field, more);
      JoinFirst(field, more);
      Longer(b, field, Join(more));
    }
  }

  lemma {:induction false} JoinUndoesSplit(text: seq<Byte>)
    ensures Join(Split(text)) == text && forall p :: p in Split(text) ==> BAR !in p
  {
    if text != [] {
      hide Join;
      var rest := Split(text[1..]);
      JoinUndoesSplit(text[1..]);
      if text[0] == BAR {
        JoinFirst([], rest);
      } else {
        JoinLonger(text[0], rest[0], rest[1..]);
      }
      assert rest == [rest[0]] + rest[1..] && text == [text[0]] + text[1..];
      assert rest[0] in rest && forall p :: p in rest[1..] ==> p in rest;
    } else {
      assert Join([[]]) == [];
    }
  }

  /** Three fields without bars, joined, that read as the parts of the key. */
  ghost predicate Reads(f: Formats, text: seq<Byte>, fields: seq<seq<Byte>>, k: Key) {
    && |fields| == 3 && text == Join(fields) && (forall p :: p in fields ==> BAR !in p)
    && f.readDate(fields[0]) == Some(k.date) && f.readTime(fields[1]) == Some(k.logged) && f.readId(fields[2]) == Some(k.id)
  }

  /** Exactly which texts are cursors, and of which entry. */
  lemma AcceptedExactlyWhen(f: Formats, bytes: Option<seq<Byte>>, k: Key)
    ensures CursorOf(f, bytes) == Some(k) <==> bytes.Some? && exists fields :: Reads(f, bytes.value, fields, k)
  {
    if bytes.Some? {
      hide Join, Split;
      JoinUndoesSplit(bytes.value);
      if CursorOf(f, bytes) == Some(k) { assert Reads(f, bytes.value, Split(bytes.value), k); }
      if fields :| Reads(f, bytes.value, fields, k) { SplitUndoesJoin(fields); }
    }
  }

  /** `padded` stands for the two padded encodings that are tried when the unpadded one does not decode. */
  method DecodeCursor(f: Formats, padded: string -> Option<seq<Byte>>, value: string) returns (cursor: Option<Key>)
    ensures cursor == CursorOf(f, if Decode(value).Some? then Decode(value) else padded(value))
  {
    var decoded := Decode(value);
    if decoded.None? {
      decoded := padded(value);
    }
    if decoded.None? {
      return None;
    }
    var parts := Split(decoded.value);
    if |parts| != 3 {
      return None;
    }
    var date := f.readDate(parts[0]);
    if date.None? {
      return None;
    }
    var logged := f.readTime(parts[1]);
    if logged.None? {
      return None;
    }
    var id := f.readId(parts[2]);
    if id.None? {
      return None;
    }
    return Some(Key(date.value, logged.value, id.value));
  }

  function CursorOf(f: Formats, decoded: Option<seq<Byte>>): Option<Key> {
    if decoded.None? then None
    else
      var parts := Split(decoded.value);
      if |parts| != 3 then None
      else
        var (date, logged, id) := (f.readDate(parts[0]), f.readTime(parts[1]), f.readId(parts[2]));
        if date.Some? && logged.Some? && id.Some? then Some(Key(date.value, logged.value, id.value)) else None
  }

  /** Decoding undoes encoding on every item key. */
  lemma CursorsRoundTrip(f: Formats, padded: string -> Option<seq<Byte>>, c: Key)
    requires RoundTrips(f)
    ensures Decode(EncodeCursor(f, c)).Some?
    ensures CursorOf(f, Decode(EncodeCursor(f, c))) == Some(c)
  {
    var parts := [f.showDate(c.date), f.showTime(c.logged), f.showId(c.id)];
    DecodeUndoesEncode(Join(parts));
    SplitUndoesJoin(parts);
    hide Decode, Encode, Join, Split;
  }

  // ---------------------------------------------------------------- the feed through cursor texts

  /** The cursor a request asks with: the empty text asks from the start, anything else must decode. */
  function ReadCursor(f: Formats, padded: string -> Option<seq<Byte>>, text: string): Option<Option<Key>> {
    if text == "" then Some(None)
    else
      var cursor := CursorOf(f, if Decode(text).Some? then Decode(text) else padded(text));
      if cursor.None? then None else Some(cursor)
  }

  function CursorText(f: Formats, next: Option<Key>): string {
    if next.None? then "" else EncodeCursor(f, next.value)
  }

  lemma CursorTextIsNotEmpty(f: Formats, c: Key)
    ensures EncodeCursor(f, c) != ""
  {
    var bytes := Join([f.showDate(c.date), f.showTime(c.logged), f.showId(c.id)]);
    assert BAR in bytes;
    assert |Sextets(bytes)| > 0;
    assert |Letters(Sextets(bytes))| == |Sextets(bytes)|;
  }

  /** Reading a cursor text gives back the cursor it was written from. */
  lemma CursorTextsRoundTrip(f: Formats, padded: string -> Option<seq<Byte>>, next: Option<Key>)
    requires RoundTrips(f)
    ensures ReadCursor(f, padded, CursorText(f, next)) == Some(next)
  {
    if next.Some? {
      CursorTextIsNotEmpty(f, next.value);
      CursorsRoundTrip(f, padded, next.value);
      hide EncodeCursor, CursorOf, Decode;
    }
  }

  /** Each request sends the text the page before gave, and is answered with the page past what that text reads as. */
  ghost predicate FollowsTexts(f: Formats, padded: string -> Option<seq<Byte>>, visits: seq<Visit>) {
    && (forall i :: 0 <= i < |visits| ==>
         && visits[i].limit >= 1
         && var cursor := ReadCursor(f, padded, CursorText(f, CursorBefore(visits, i)));
         && cursor.Some? && IsPage(visits[i].page, visits[i].table, cursor.value, visits[i].limit))
    && (forall i :: 0 <= i < |visits| - 1 ==> visits[i].page.next.Some?)
  }

  lemma TextsCarryCursors(f: Formats, padded: string -> Option<seq<Byte>>, visits: seq<Visit>)
    requires RoundTrips(f)
    ensures FollowsTexts(f, padded, visits) <==> Follows(visits)
  {
    hide IsPage, ReadCursor, CursorText, RoundTrips;
    forall i: nat | i < |visits| ensures ReadCursor(f, padded, CursorText(f, CursorBefore(visits, i))) == Some(CursorBefore(visits, i)) {
      CursorTextsRoundTrip(f, padded, CursorBefore(visits, i));
    }
  }

  /**
   Following cursor texts from the start to the end shows nothing twice whatever happens between the
   requests, and what was there all the time exactly once; if nothing changes, exactly the visible
   entries, in falling order, in at most one page more than there are entries.
   */
  lemma FeedThroughTexts(f: Formats, padded: string -> Option<seq<Byte>>, visits: seq<Visit>)
    requires RoundTrips(f) && FollowsTexts(f, padded, visits) && visits != [] && visits[|visits| - 1].page.next.None?
    ensures Falling(Shown(visits))
    ensures forall k :: (forall v :: v in visits ==> k in v.table) ==> ExactlyOnce(Shown(visits), k)
    ensures (forall v :: v in visits ==> v.table == visits[0].table) ==>
      |visits| <= |visits[0].table| + 1 && forall k :: k in Shown(visits) <==> k in visits[0].table
  {
    hide Falling, Shown, ExactlyOnce, Follows, FollowsTexts, RoundTrips;
    TextsCarryCursors(f, padded, visits);
    PagesNeverRepeat(visits);
    forall k | forall v :: v in visits ==> k in v.table ensures ExactlyOnce(Shown(visits), k) {
      SteadyEntriesAreShownOnce(visits, k);
    }
    if forall v :: v in visits ==> v.table == visits[0].table {
      FixedDataIsShownWhole(visits, visits[0].table);
      FixedDataEnds(visits, visits[0].table);
    }
  }
}
