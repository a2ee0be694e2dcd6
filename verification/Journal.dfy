/** The byte log both stores keep: one record a line, and the newline is the commit.

    What a line says is the codec's business. A sound codec writes no newline inside a
    record and reads back what it wrote; nothing else about the text matters here. */
module Journal {
  import opened Wrappers

  newtype byte = b: int | 0 <= b < 256

  const NEWLINE: byte := 10

  /** What one committed line holds once it is decoded and trimmed. */
  datatype Line<+R> = Blank | Bad | Entry(record: R)

  datatype Codec<!R> = Codec(encode: R -> seq<byte>, read: seq<byte> -> Line<R>)

  ghost predicate Sound<R(!new)>(c: Codec<R>) {
    forall r: R :: NEWLINE !in c.encode(r) && c.read(c.encode(r)) == Entry(r)
  }

  /** The outcome of one pass over a journal: its records and the length that ends on a
      record boundary, or the number of the first committed line that is no record. */
  datatype Scan<+R> = Found(records: seq<R>, committed: nat) | Corrupt(line: nat)

  // ----- lines -----

  /** The length of the first line with its newline, or 0 when no newline is left. */
  function LineLength(bytes: seq<byte>): (n: nat)
    ensures n <= |bytes|
  {
    if bytes == [] then 0
    else if bytes[0] == NEWLINE then 1
    else
      var rest := LineLength(bytes[1..]);
      if rest == 0 then 0 else rest + 1
  }

  lemma {:induction false} FirstNewline(bytes: seq<byte>)
    ensures var n := LineLength(bytes);
            && (n == 0 <==> NEWLINE !in bytes)
            && (n > 0 ==> bytes[n - 1] == NEWLINE && NEWLINE !in bytes[..n - 1])
  {
    if bytes != [] {
      FirstNewline(bytes[1..]);
      assert bytes == [bytes[0]] + bytes[1..];
      var n := LineLength(bytes);
      if n > 1 {
        assert bytes[..n - 1] == [bytes[0]] + bytes[1..][..n - 2];
      }
    }
  }

  /** The committed lines, each without its newline. */
  function Lines(bytes: seq<byte>): seq<seq<byte>>
    decreases |bytes|
  {
    var n := LineLength(bytes);
    if n == 0 then [] else [bytes[..n - 1]] + Lines(bytes[n..])
  }

  /** The length up to and with the last newline. */
  function Boundary(bytes: seq<byte>): (n: nat)
    ensures n <= |bytes|
    decreases |bytes|
  {
    var n := LineLength(bytes);
    if n == 0 then 0 else n + Boundary(bytes[n..])
  }

  lemma {:induction false} LastNewline(bytes: seq<byte>)
    ensures var n := Boundary(bytes);
            NEWLINE !in bytes[n..] && (n == 0 || bytes[n - 1] == NEWLINE)
    decreases |bytes|
  {
    var n := LineLength(bytes);
    FirstNewline(bytes);
    if n > 0 {
      LastNewline(bytes[n..]);
      assert bytes[n..][Boundary(bytes[n..])..] == bytes[Boundary(bytes)..];
    }
  }

  /** The bytes end on a record boundary. */
  predicate Whole(bytes: seq<byte>) {
    bytes == [] || bytes[|bytes| - 1] == NEWLINE
  }

  lemma NoneAfter(bytes: seq<byte>, n: nat)
    requires n <= |bytes| && NEWLINE !in bytes[n..]
    ensures forall i :: n <= i < |bytes| ==> bytes[i] != NEWLINE
  {
    forall i | n <= i < |bytes| ensures bytes[i] != NEWLINE {
      assert bytes[i] == bytes[n..][i - n];
    }
  }

  /** Only one length splits the bytes into whole lines and a tail with no newline. */
  lemma BoundaryUnique(bytes: seq<byte>, n: nat)
    requires n <= |bytes| && (n == 0 || bytes[n - 1] == NEWLINE) && NEWLINE !in bytes[n..]
    ensures Boundary(bytes) == n
  {
    var m := Boundary(bytes);
    LastNewline(bytes);
    NoneAfter(bytes, n);
    NoneAfter(bytes, m);
  }

  lemma NoLines(tail: seq<byte>)
    requires NEWLINE !in tail
    ensures Lines(tail) == []
  {
    FirstNewline(tail);
  }

  lemma LineLengthIs(bytes: seq<byte>, n: nat)
    requires 0 < n <= |bytes| && bytes[n - 1] == NEWLINE && NEWLINE !in bytes[..n - 1]
    ensures LineLength(bytes) == n
  {
    var m := LineLength(bytes);
    FirstNewline(bytes);
    assert forall i :: 0 <= i < n - 1 ==> bytes[i] == bytes[..n - 1][i] != NEWLINE;
    assert forall i :: 0 <= i < m - 1 ==> bytes[i] == bytes[..m - 1][i] != NEWLINE;
  }

  /** The lines of whole bytes stay as they are whatever is appended. */
  lemma {:induction false} LinesAppend(a: seq<byte>, b: seq<byte>)
    requires Whole(a)
    ensures Lines(a + b) == Lines(a) + Lines(b)
    decreases |a|
  {
    if a == [] {
      assert a + b == b;
    } else {
      var n := LineLength(a);
      FirstNewline(a);
      assert (a + b)[..n - 1] == a[..n - 1] && (a + b)[n..] == a[n..] + b;
      LineLengthIs(a + b, n);
      LinesAppend(a[n..], b);
    }
  }

  lemma OneLine(line: seq<byte>)
    requires NEWLINE !in line
    ensures Lines(line + [NEWLINE]) == [line]
  {
    var bytes := line + [NEWLINE];
    assert bytes[..|line|] == line;
    LineLengthIs(bytes, |line| + 1);
    assert bytes[|bytes|..] == [];
    assert Lines([]) == [];
  }

  // ----- records -----

  /** Every record on a run of lines, or the number of the first line that holds none. */
  function Decode<R>(c: Codec<R>, lines: seq<seq<byte>>): Scan<R> {
    if lines == [] then Found([], 0)
    else
      match Decode(c, lines[..|lines| - 1])
      case Corrupt(line) => Corrupt(line)
      case Found(records, n) =>
        match c.read(lines[|lines| - 1])
        case Bad => Corrupt(|lines|)
        case Blank => Found(records, n)
        case Entry(r) => Found(records + [r], n)
  }

  /** One pass over a journal. */
  function Recover<R>(c: Codec<R>, bytes: seq<byte>): Scan<R> {
    match Decode(c, Lines(bytes))
    case Found(records, _) => Found(records, Boundary(bytes))
    case Corrupt(line) => Corrupt(line)
  }

  lemma {:induction false} DecodeShape<R>(c: Codec<R>, lines: seq<seq<byte>>)
    ensures Decode(c, lines).Found? ==> Decode(c, lines).committed == 0
  {
    if lines != [] {
      DecodeShape(c, lines[..|lines| - 1]);
    }
  }

  /** A journal is refused exactly when a committed line is no record, and the line it
      names is the first such. */
  lemma {:induction false} RefusalMeaning<R>(c: Codec<R>, lines: seq<seq<byte>>)
    ensures Decode(c, lines).Corrupt? <==> exists i :: 0 <= i < |lines| && c.read(lines[i]).Bad?
    ensures Decode(c, lines).Corrupt? ==>
              var k := Decode(c, lines).line;
              && 0 < k <= |lines| && c.read(lines[k - 1]).Bad?
              && forall i :: 0 <= i < k - 1 ==> !c.read(lines[i]).Bad?
  {
    if lines != [] {
      var early := lines[..|lines| - 1];
      RefusalMeaning(c, early);
      assert forall i :: 0 <= i < |early| ==> early[i] == lines[i];
      if Decode(c, early).Corrupt? {
        var i :| 0 <= i < |early| && c.read(early[i]).Bad?;
        assert c.read(lines[i]).Bad?;
      }
    }
  }

  lemma {:induction false} DecodeAppend<R>(c: Codec<R>, a: seq<seq<byte>>, b: seq<seq<byte>>)
    requires Decode(c, a).Found? && Decode(c, b).Found?
    ensures Decode(c, a + b) == Found(Decode(c, a).records + Decode(c, b).records, 0)
  {
    DecodeShape(c, a);
    if b == [] {
      assert a + b == a;
      assert Decode(c, a).records + [] == Decode(c, a).records;
    } else {
      var early := b[..|b| - 1];
      assert (a + b)[..|a + b| - 1] == a + early;
      DecodeAppend(c, a, early);
      if c.read(b[|b| - 1]).Entry? {
        var r := c.read(b[|b| - 1]).record;
        assert Decode(c, a).records + (Decode(c, early).records + [r]) ==
               Decode(c, a).records + Decode(c, early).records + [r];
      }
    }
  }

  /** The bytes `writeln!` appends for a run of records. */
  function Encode<R>(c: Codec<R>, records: seq<R>): (bytes: seq<byte>)
    ensures Whole(bytes)
  {
    if records == [] then []
    else Encode(c, records[..|records| - 1]) + c.encode(records[|records| - 1]) + [NEWLINE]
  }

  lemma {:induction false} EncodeAppend<R>(c: Codec<R>, a: seq<R>, b: seq<R>)
    ensures Encode(c, a + b) == Encode(c, a) + Encode(c, b)
  {
    if b == [] {
      assert a + b == a;
    } else {
      var early := b[..|b| - 1];
      assert (a + b)[..|a + b| - 1] == a + early;
      EncodeAppend(c, a, early);
      assert Encode(c, a + b) == Encode(c, a) + Encode(c, early) + c.encode(b[|b| - 1]) + [NEWLINE];
    }
  }

  lemma EncodeSnoc<R>(c: Codec<R>, records: seq<R>, r: R)
    ensures Encode(c, records + [r]) == Encode(c, records) + (c.encode(r) + [NEWLINE])
  {
    assert (records + [r])[..|records|] == records;
    assert Encode(c, records) + c.encode(r) + [NEWLINE] == Encode(c, records) + (c.encode(r) + [NEWLINE]);
  }

  // ----- a store's file: appending, and losing a tail -----

  /** The file ends on a boundary and holds exactly `log`. */
  ghost predicate Holds<R>(c: Codec<R>, file: seq<byte>, log: seq<R>) {
    Whole(file) && Decode(c, Lines(file)) == Found(log, 0)
  }

  /** A whole file is found as it is, with nothing to truncate. */
  lemma HoldsRecover<R>(c: Codec<R>, file: seq<byte>, log: seq<R>)
    requires Holds(c, file, log)
    ensures Recover(c, file) == Found(log, |file|)
  {
    BoundaryUnique(file, |file|);
  }

  lemma HoldsNothing<R>(c: Codec<R>)
    ensures Holds(c, [], [])
  {
    assert Lines([]) == [];
  }

  lemma HoldsOne<R(!new)>(c: Codec<R>, r: R)
    requires Sound(c)
    ensures Holds(c, c.encode(r) + [NEWLINE], [r])
  {
    OneLine(c.encode(r));
    var lines := [c.encode(r)];
    assert lines[..0] == [];
    assert Decode(c, lines[..0]) == Found([], 0);
  }

  lemma HoldsConcat<R>(c: Codec<R>, a: seq<byte>, b: seq<byte>, la: seq<R>, lb: seq<R>)
    requires Holds(c, a, la) && Holds(c, b, lb)
    ensures Holds(c, a + b, la + lb)
  {
    LinesAppend(a, b);
    DecodeAppend(c, Lines(a), Lines(b));
    assert b != [] ==> (a + b)[|a + b| - 1] == b[|b| - 1];
    assert b == [] ==> a + b == a;
  }

  /** What was written reads back. */
  lemma {:induction false} EncodeHolds<R(!new)>(c: Codec<R>, records: seq<R>)
    requires Sound(c)
    ensures Holds(c, Encode(c, records), records)
  {
    if records == [] {
      HoldsNothing(c);
    } else {
      var early, r := records[..|records| - 1], records[|records| - 1];
      assert records == early + [r];
      EncodeHolds(c, early);
      HoldsOne(c, r);
      EncodeSnoc(c, early, r);
      HoldsConcat(c, Encode(c, early), c.encode(r) + [NEWLINE], early, [r]);
    }
  }

  /** An append leaves a whole file with the new records after the old ones. */
  lemma AppendHolds<R(!new)>(c: Codec<R>, file: seq<byte>, log: seq<R>, records: seq<R>)
    requires Sound(c) && Holds(c, file, log)
    ensures Holds(c, file + Encode(c, records), log + records)
  {
    EncodeHolds(c, records);
    HoldsConcat(c, file, Encode(c, records), log, records);
  }

  /** A whole file with a piece of a line after it is read, and measured, as the whole
      file. */
  lemma RecoverTail<R>(c: Codec<R>, file: seq<byte>, tail: seq<byte>, log: seq<R>)
    requires Holds(c, file, log) && NEWLINE !in tail
    ensures Recover(c, file + tail) == Found(log, |file|)
    ensures Boundary(file + tail) == |file| && (file + tail)[..|file|] == file
  {
    var bytes := file + tail;
    assert bytes[..|file|] == file && bytes[|file|..] == tail;
    BoundaryUnique(bytes, |file|);
    LinesAppend(file, tail);
    NoLines(tail);
    assert Lines(bytes) == Lines(file);
  }

  /** Opening truncates to the boundary it measured, and the truncated file is whole. */
  lemma TruncateHolds<R>(c: Codec<R>, bytes: seq<byte>)
    requires Recover(c, bytes).Found?
    ensures Holds(c, bytes[..Boundary(bytes)], Recover(c, bytes).records)
  {
    var n := Boundary(bytes);
    LastNewline(bytes);
    assert bytes == bytes[..n] + bytes[n..];
    LinesAppend(bytes[..n], bytes[n..]);
    NoLines(bytes[n..]);
    assert Lines(bytes) == Lines(bytes[..n]);
    DecodeShape(c, Lines(bytes));
  }

  /** How many of `records` have their newline inside the first `kept` bytes. */
  function Survivors<R>(c: Codec<R>, records: seq<R>, kept: nat): (k: nat)
    requires kept <= |Encode(c, records)|
    ensures k <= |records|
    ensures |Encode(c, records[..k])| <= kept
    ensures k < |records| ==> kept < |Encode(c, records[..k + 1])|
  {
    if kept == |Encode(c, records)| then
      assert records[..|records|] == records;
      |records|
    else
      var early := records[..|records| - 1];
      if kept >= |Encode(c, early)| then
        assert records[..|early| + 1] == records;
        |early|
      else
        var k := Survivors(c, early, kept);
        assert records[..k] == early[..k] && records[..k + 1] == early[..k + 1];
        k
  }

  lemma Piece<T>(base: seq<T>, line: seq<T>, rest: seq<T>, kept: nat)
    requires |base| <= kept <= |base| + |line|
    ensures (base + line + rest)[..kept] == base + line[..kept - |base|]
  {
  }

  /** A cut inside the line of one record leaves the records before it and a piece of that
      line. */
  lemma TornLine<R(!new)>(c: Codec<R>, early: seq<R>, r: R, late: seq<R>, kept: nat) returns (tail: seq<byte>)
    requires Sound(c) && |Encode(c, early)| <= kept < |Encode(c, early + [r])|
    ensures NEWLINE !in tail && kept <= |Encode(c, early + [r] + late)|
    ensures Encode(c, early + [r] + late)[..kept] == Encode(c, early) + tail
  {
    var base, line, rest := Encode(c, early), c.encode(r), [NEWLINE] + Encode(c, late);
    EncodeSnoc(c, early, r);
    EncodeAppend(c, early + [r], late);
    assert base + (line + [NEWLINE]) + Encode(c, late) == base + line + rest;
    Piece(base, line, rest, kept);
    tail := line[..kept - |base|];
  }

  lemma Around<T>(s: seq<T>, k: nat)
    requires k < |s|
    ensures s == s[..k] + [s[k]] + s[k + 1..] && s[..k + 1] == s[..k] + [s[k]]
  {
  }

  /** The bytes past the last surviving record are a piece of one line. */
  lemma TornTail<R(!new)>(c: Codec<R>, records: seq<R>, kept: nat) returns (tail: seq<byte>)
    requires Sound(c) && kept <= |Encode(c, records)|
    ensures NEWLINE !in tail
    ensures Encode(c, records)[..kept] == Encode(c, records[..Survivors(c, records, kept)]) + tail
  {
    var k := Survivors(c, records, kept);
    if k < |records| {
      Around(records, k);
      tail := TornLine(c, records[..k], records[k], records[k + 1..], kept);
    } else {
      assert records[..k] == records;
      tail := [];
    }
  }

  /** Cut an append at any byte and recovery finds the old records and then exactly the
      new ones whose newline survived, and measures the file to that boundary. */
  lemma CutRecovers<R(!new)>(c: Codec<R>, file: seq<byte>, log: seq<R>, records: seq<R>, kept: nat)
    requires Sound(c) && Holds(c, file, log) && kept <= |Encode(c, records)|
    ensures var k := Survivors(c, records, kept);
            var cut, base := file + Encode(c, records)[..kept], file + Encode(c, records[..k]);
            && Recover(c, cut) == Found(log + records[..k], |base|)
            && cut[..Boundary(cut)] == base
            && Holds(c, base, log + records[..k])
  {
    var k := Survivors(c, records, kept);
    var base := Encode(c, records[..k]);
    var tail := TornTail(c, records, kept);
    AppendHolds(c, file, log, records[..k]);
    RecoverTail(c, file + base, tail, log + records[..k]);
    assert file + (base + tail) == file + base + tail;
  }

  // ----- one step of a scan -----

  lemma LinesSnoc(a: seq<byte>, line: seq<byte>)
    requires Whole(a) && NEWLINE !in line
    ensures Lines(a + (line + [NEWLINE])) == Lines(a) + [line]
    ensures Whole(a + (line + [NEWLINE]))
  {
    OneLine(line);
    LinesAppend(a, line + [NEWLINE]);
  }

  /** A line that is no record refuses the whole journal, whatever follows. */
  lemma {:induction false} CorruptStays<R>(c: Codec<R>, a: seq<seq<byte>>, b: seq<seq<byte>>)
    requires Decode(c, a).Corrupt?
    ensures Decode(c, a + b) == Decode(c, a)
  {
    if b == [] {
      assert a + b == a;
    } else {
      CorruptStays(c, a, b[..|b| - 1]);
      assert (a + b)[..|a + b| - 1] == a + b[..|b| - 1];
    }
  }

  lemma DecodeLine<R>(c: Codec<R>, lines: seq<seq<byte>>, line: seq<byte>)
    requires Decode(c, lines).Found?
    ensures match c.read(line)
            case Bad => Decode(c, lines + [line]) == Corrupt(|lines| + 1)
            case Blank => Decode(c, lines + [line]) == Decode(c, lines)
            case Entry(r) => Decode(c, lines + [line]) ==
                             Found(Decode(c, lines).records + [r], Decode(c, lines).committed)
  {
    assert (lines + [line])[..|lines|] == lines;
  }

  lemma ScanBad<R>(c: Codec<R>, head: seq<byte>, line: seq<byte>, rest: seq<byte>, log: seq<R>)
    requires Holds(c, head, log) && NEWLINE !in line && c.read(line).Bad?
    ensures Recover(c, head + (line + [NEWLINE]) + rest) == Corrupt(|Lines(head)| + 1)
  {
    var done := head + (line + [NEWLINE]);
    LinesSnoc(head, line);
    DecodeLine(c, Lines(head), line);
    LinesAppend(done, rest);
    CorruptStays(c, Lines(done), Lines(rest));
  }

  lemma ScanGood<R>(c: Codec<R>, head: seq<byte>, line: seq<byte>, log: seq<R>)
    requires Holds(c, head, log) && NEWLINE !in line && !c.read(line).Bad?
    ensures var done := head + (line + [NEWLINE]);
            && Holds(c, done, Noted(log, c.read(line)))
            && |Lines(done)| == |Lines(head)| + 1
  {
    LinesSnoc(head, line);
    DecodeLine(c, Lines(head), line);
  }

  /** The state a journal's records fold into. */
  function Replay<R, S>(fold: (S, R) -> S, start: S, log: seq<R>): S {
    if log == [] then start else fold(Replay(fold, start, log[..|log| - 1]), log[|log| - 1])
  }

  /** What one pass leaves in hand: the folded state and the committed length. */
  datatype Scanned<+S> = Scanned(state: S, committed: nat)

  function Absorb<R, S>(fold: (S, R) -> S, state: S, entry: Line<R>): S {
    if entry.Entry? then fold(state, entry.record) else state
  }

  function Noted<R>(log: seq<R>, entry: Line<R>): seq<R> {
    if entry.Entry? then log + [entry.record] else log
  }

  lemma ReplayNoted<R, S>(fold: (S, R) -> S, start: S, log: seq<R>, entry: Line<R>)
    ensures Replay(fold, start, Noted(log, entry)) == Absorb(fold, Replay(fold, start, log), entry)
  {
    if entry.Entry? {
      assert (log + [entry.record])[..|log|] == log;
    }
  }

  function ReadLine<R>(c: Codec<R>, line: seq<byte>): Line<R> {
    c.read(line)
  }

  /** Fold the records of all committed lines in one pass. A tail with no newline
      is left out, and a committed line that is no record refuses the file by its number. */
  method ScanInto<R, S>(c: Codec<R>, fold: (S, R) -> S, start: S, bytes: seq<byte>)
    returns (r: Result<Scanned<S>, nat>)
    ensures match Recover(c, bytes)
            case Corrupt(line) => r == Err(line)
            case Found(log, committed) => r == Ok(Scanned(Replay(fold, start, log), committed))
  {
    var state, committed, index := start, 0, 0;
    var rest := bytes;
    ghost var head: seq<byte>, log: seq<R> := [], [];
    HoldsNothing(c);
    while LineLength(rest) > 0
      invariant bytes == head + rest && |head| == committed
      invariant Holds(c, head, log)
      invariant |Lines(head)| == index
      invariant state == Replay(fold, start, log)
      decreases |rest|
    {
      var n := LineLength(rest);
      var line := rest[..n - 1];
      FirstNewline(rest);
      var entry := ReadLine(c, line);
      assert rest == (line + [NEWLINE]) + rest[n..];
      if entry.Bad? {
        ScanBad(c, head, line, rest[n..], log);
        assert bytes == head + (line + [NEWLINE]) + rest[n..];
        return Err(index + 1);
      }
      ScanGood(c, head, line, log);
      ReplayNoted(fold, start, log, entry);
      state, log := Absorb(fold, state, entry), Noted(log, entry);
      head, rest := head + (line + [NEWLINE]), rest[n..];
      committed, index := committed + n, index + 1;
    }
    FirstNewline(rest);
    RecoverTail(c, head, rest, log);
    return Ok(Scanned(state, committed));
  }
}
