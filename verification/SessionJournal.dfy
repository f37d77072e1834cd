/**
 The journal of one connection (backend/session_log.go): a ring of the newest lines in memory and a
 file that stops growing at a limit.  Lines are bytes, taken after redaction; what the file system
 answers is a parameter of every operation that calls it.
 */
module SessionJournal {
  import opened Finite
  import opened Wrappers

  const FILE_LIMIT := 512 * 1024
  const MEMORY_LIMIT := 128 * 1024
  const LINE_LIMIT := 4096
  const RETENTION := 10
  const SYNC_EVERY := 50

  const LF: Byte := 10
  const CR: Byte := 13

  function Ascii(s: string): (r: Bytes)
    requires forall i :: 0 <= i < |s| ==> s[i] < 128 as char
    ensures |r| == |s|
  {
    seq(|s|, i requires 0 <= i < |s| => s[i] as int)
  }

  // ---------------------------------------------------------------- UTF-8

  predicate Within(b: Bytes, i: nat, lo: Byte, hi: Byte) {
    i < |b| && lo <= b[i] <= hi
  }

  /** The length of the UTF-8 sequence b starts with, or 0 when it starts with none. */
  function RuneLength(b: Bytes): (w: nat)
    requires b != []
    ensures w <= 4 && w <= |b|
  {
    var c := b[0];
    if c < 0x80 then 1
    else if 0xC2 <= c <= 0xDF then if Within(b, 1, 0x80, 0xBF) then 2 else 0
    else if 0xE0 <= c <= 0xEF then
      var lo := if c == 0xE0 then 0xA0 else 0x80;
      var hi := if c == 0xED then 0x9F else 0xBF;
      if Within(b, 1, lo, hi) && Within(b, 2, 0x80, 0xBF) then 3 else 0
    else if 0xF0 <= c <= 0xF4 then
      var lo := if c == 0xF0 then 0x90 else 0x80;
      var hi := if c == 0xF4 then 0x8F else 0xBF;
      if Within(b, 1, lo, hi) && Within(b, 2, 0x80, 0xBF) && Within(b, 3, 0x80, 0xBF) then 4 else 0
    else 0
  }

  predicate Scalar(cp: nat) {
    cp < 0xD800 || 0xE000 <= cp < 0x11_0000
  }

  /** A code point in UTF-8 (RFC 3629, section 3). */
  function Utf8(cp: nat): Bytes
    requires Scalar(cp)
  {
    if cp < 0x80 then [cp]
    else if cp < 0x800 then [0xC0 + cp / 64, 0x80 + cp % 64]
    else if cp < 0x1_0000 then [0xE0 + cp / 64 / 64, 0x80 + cp / 64 % 64, 0x80 + cp % 64]
    else [0xF0 + cp / 64 / 64 / 64, 0x80 + cp / 64 / 64 % 64, 0x80 + cp / 64 % 64, 0x80 + cp % 64]
  }

  lemma EncodedIsRune(cp: nat, rest: Bytes)
    requires Scalar(cp)
    ensures RuneLength(Utf8(cp) + rest) == |Utf8(cp)|
  {
  }

  lemma SixBits(high: nat, low: nat)
    requires low < 64
    ensures (high * 64 + low) / 64 == high && (high * 64 + low) % 64 == low
  {
  }

  lemma TwoBytes(a: int, b: int)
    requires 0xC2 <= a <= 0xDF && 0x80 <= b <= 0xBF
    ensures var cp := (a - 0xC0) * 64 + (b - 0x80); Scalar(cp) && Utf8(cp) == [a, b]
  {
    SixBits(a - 0xC0, b - 0x80);
  }

  lemma ThreeBytes(a: int, b: int, c: int)
    requires 0xE0 <= a <= 0xEF && (if a == 0xE0 then 0xA0 else 0x80) <= b <= (if a == 0xED then 0x9F else 0xBF) && 0x80 <= c <= 0xBF
    ensures var cp := ((a - 0xE0) * 64 + (b - 0x80)) * 64 + (c - 0x80); Scalar(cp) && Utf8(cp) == [a, b, c]
  {
    SixBits(a - 0xE0, b - 0x80);
    SixBits((a - 0xE0) * 64 + (b - 0x80), c - 0x80);
  }

  lemma FourBytes(a: int, b: int, c: int, d: int)
    requires 0xF0 <= a <= 0xF4 && (if a == 0xF0 then 0x90 else 0x80) <= b <= (if a == 0xF4 then 0x8F else 0xBF)
    requires 0x80 <= c <= 0xBF && 0x80 <= d <= 0xBF
    ensures var cp := (((a - 0xF0) * 64 + (b - 0x80)) * 64 + (c - 0x80)) * 64 + (d - 0x80); Scalar(cp) && Utf8(cp) == [a, b, c, d]
  {
    SixBits(a - 0xF0, b - 0x80);
    SixBits((a - 0xF0) * 64 + (b - 0x80), c - 0x80);
    SixBits(((a - 0xF0) * 64 + (b - 0x80)) * 64 + (c - 0x80), d - 0x80);
  }

  lemma RuneIsEncoded(b: Bytes) returns (cp: nat)
    requires b != [] && RuneLength(b) != 0
    ensures Scalar(cp) && Utf8(cp) == b[..RuneLength(b)]
  {
    hide Utf8;
    var w := RuneLength(b);
    if w == 1 {
      cp := b[0];
      OneByte(b[0]);
      assert b[..w] == [b[0]];
    } else if w == 2 {
      cp := (b[0] as int - 0xC0) * 64 + (b[1] as int - 0x80);
      TwoBytes(b[0], b[1]);
      assert b[..w] == [b[0], b[1]];
    } else if w == 3 {
      cp := ((b[0] as int - 0xE0) * 64 + (b[1] as int - 0x80)) * 64 + (b[2] as int - 0x80);
      ThreeBytes(b[0], b[1], b[2]);
      assert b[..w] == [b[0], b[1], b[2]];
    } else {
      cp := (((b[0] as int - 0xF0) * 64 + (b[1] as int - 0x80)) * 64 + (b[2] as int - 0x80)) * 64 + (b[3] as int - 0x80);
      FourBytes(b[0], b[1], b[2], b[3]);
      assert b[..w] == [b[0], b[1], b[2], b[3]];
    }
  }

  lemma OneByte(a: nat)
    requires a < 0x80
    ensures Scalar(a) && Utf8(a) == [a]
  {
  }

  /** A text begins with a rune of w bytes exactly when they encode a code point. */
  lemma RunesAreUtf8(b: Bytes, w: nat)
    requires b != [] && 0 < w <= |b|
    ensures RuneLength(b) == w <==> exists cp: nat :: Scalar(cp) && Utf8(cp) == b[..w]
  {
    hide RuneLength, Utf8;
    if RuneLength(b) == w {
      var cp := RuneIsEncoded(b);
    }
    forall cp: nat | Scalar(cp) && Utf8(cp) == b[..w] ensures RuneLength(b) == w {
      EncodedIsRune(cp, b[w..]);
      assert b[..w] + b[w..] == b;
    }
  }

  /** How far a range loop moves over the first rune: a byte that starts none is one step. */
  function Step(b: Bytes): (w: nat)
    requires b != []
    ensures 1 <= w <= 4 && w <= |b|
  {
    if RuneLength(b) == 0 then 1 else RuneLength(b)
  }

  /** The bytes of the first rune written back as a string: a bad byte becomes U+FFFD. */
  function Reencoded(b: Bytes): (n: nat)
    requires b != []
    ensures Step(b) <= n <= 4
  {
    if RuneLength(b) == 0 then 3 else RuneLength(b)
  }

  /** A range loop moves over a rune at a time, or over one byte that starts none; what it hands out takes
      as many bytes as its encoding, U+FFFD standing for a bad byte. */
  lemma RangeLoopMeaning(b: Bytes, cp: nat)
    requires b != [] && Scalar(cp)
    ensures (exists w: nat :: 0 < w <= |b| && Utf8(cp) == b[..w]) ==> Step(b) == Reencoded(b) == |Utf8(cp)|
    ensures RuneLength(b) == 0 ==> Step(b) == 1 && Reencoded(b) == |Utf8(0xFFFD)|
  {
    hide RuneLength;
    forall w: nat | 0 < w <= |b| && Utf8(cp) == b[..w] ensures RuneLength(b) == w {
      RunesAreUtf8(b, w);
    }
  }

  predicate ValidUtf8(b: Bytes) {
    b == [] || (RuneLength(b) != 0 && ValidUtf8(b[RuneLength(b)..]))
  }

  /** A range loop over b visits offset i, or i is the end. */
  predicate RuneStart(b: Bytes, i: nat) {
    i == 0 || (b != [] && Step(b) <= i && RuneStart(b[Step(b)..], i - Step(b)))
  }

  /** The re-encoded size of the runes before offset i. */
  function SizeBefore(b: Bytes, i: nat): nat
    requires RuneStart(b, i)
  {
    if i == 0 then 0 else Reencoded(b) + SizeBefore(b[Step(b)..], i - Step(b))
  }

  lemma {:induction false} NextStart(b: Bytes, i: nat)
    requires RuneStart(b, i) && i < |b|
    ensures RuneStart(b, i + Step(b[i..]))
    ensures SizeBefore(b, i + Step(b[i..])) == SizeBefore(b, i) + Reencoded(b[i..])
  {
    if i == 0 {
      assert b[0..] == b;
    } else {
      var w := Step(b);
      assert b[w..][i - w..] == b[i..];
      NextStart(b[w..], i - w);
    }
  }

  lemma {:induction false} SizeCoversOffset(b: Bytes, i: nat)
    requires RuneStart(b, i)
    ensures i <= |b| && i <= SizeBefore(b, i)
  {
    if i != 0 {
      SizeCoversOffset(b[Step(b)..], i - Step(b));
    }
  }

  lemma LengthInPrefix(b: Bytes, i: nat)
    requires b != [] && RuneLength(b) != 0 && RuneLength(b) <= i <= |b|
    ensures RuneLength(b[..i]) == RuneLength(b)
  {
  }

  /** Cutting valid UTF-8 where a rune starts leaves valid UTF-8 on both sides. */
  lemma {:induction false} CutKeepsRunes(b: Bytes, i: nat)
    requires ValidUtf8(b) && RuneStart(b, i)
    ensures i <= |b| && SizeBefore(b, i) == i
    ensures ValidUtf8(b[..i]) && ValidUtf8(b[i..])
  {
    hide RuneLength;
    SizeCoversOffset(b, i);
    if i == 0 {
      assert b[0..] == b;
    } else {
      var w := Step(b);
      CutKeepsRunes(b[w..], i - w);
      assert b[w..][i - w..] == b[i..];
      assert b[w..][..i - w] == b[..i][w..];
      LengthInPrefix(b, i);
    }
  }

  // ---------------------------------------------------------------- one line

  /** The message on one line: CR and LF are written as escapes. */
  function Escaped(m: Bytes): (r: Bytes)
    ensures CR !in r && LF !in r
  {
    if m == [] then []
    else if m[0] == CR then Ascii("\\r") + Escaped(m[1..])
    else if m[0] == LF then Ascii("\\n") + Escaped(m[1..])
    else [m[0]] + Escaped(m[1..])
  }

  /** Line ends are what it changes, one by one. */
  lemma {:induction false} EscapedMeaning(a: Bytes)
    ensures CR !in a && LF !in a ==> Escaped(a) == a
    ensures Escaped([LF]) == Ascii("\\n") && Escaped([CR]) == Ascii("\\r")
  {
    EscapedEnds();
    if a != [] {
      EscapedMeaning(a[1..]);
      assert a == [a[0]] + a[1..];
    }
  }

  lemma EscapedEnds()
    ensures Escaped([LF]) == Ascii("\\n") && Escaped([CR]) == Ascii("\\r")
  {
    assert [LF][1..] == [] && [CR][1..] == [];
  }

  const CUT_AT := LINE_LIMIT - 16
  const MARK: Bytes := Ascii(" [truncated]")

  /** out is line cut before the first rune that does not fit, with the mark, if it is too long. */
  ghost predicate CutTo(line: Bytes, out: Bytes, c: nat) {
    && c < |line| && RuneStart(line, c)
    && SizeBefore(line, c) <= CUT_AT < SizeBefore(line, c) + Reencoded(line[c..])
    && out == line[..c] + MARK
  }

  ghost predicate IsCut(line: Bytes, out: Bytes) {
    exists c: nat :: CutTo(line, out, c)
  }

  /** The line kept in the journal, without its line end. */
  method Bounded(text: Bytes) returns (line: Bytes)
    ensures |line| <= LINE_LIMIT - 4
    ensures |text| <= CUT_AT ==> line == text
    ensures |text| > CUT_AT ==> IsCut(text, line)
    ensures ValidUtf8(text) && |text| > CUT_AT ==>
              exists c: nat :: CUT_AT - 3 <= c <= CUT_AT && line == text[..c] + MARK && ValidUtf8(text[..c])
  {
    line := text;
    if |text| > CUT_AT {
      var size, i := 0, 0;
      while i < |text|
        invariant 0 <= i <= |text| && RuneStart(text, i) && size == SizeBefore(text, i) <= CUT_AT
        invariant line == text
      {
        var here := text[i..];
        NextStart(text, i);
        if size + Reencoded(here) > CUT_AT {
          line := text[..i] + MARK;
          SizeCoversOffset(text, i);
          assert CutTo(text, line, i);
          if ValidUtf8(text) {
            CutKeepsRunes(text, i);
          }
          return;
        }
        size := size + Reencoded(here);
        i := i + Step(here);
      }
      SizeCoversOffset(text, i);
      assert false;
    }
  }

  lemma CutAddsNoLineEnd(text: Bytes, line: Bytes)
    requires IsCut(text, line) && LF !in text
    ensures LF !in line
  {
    assert LF !in MARK;
  }

  /** The journal line of one event: one line end, at the end, whatever the message holds. */
  method BoundedLogLine(time: Bytes, level: Bytes, message: Bytes) returns (line: Bytes)
    ensures 0 < |line| <= 4096 && line[|line| - 1] == LF
    ensures LF !in time + level ==> LF !in line[..|line| - 1]
    ensures var shown := if level == [] then Ascii("INFO") else level;
            var text := Ascii("[") + time + Ascii("] [") + shown + Ascii("] ") + Escaped(message);
            && (|text| <= 4080 ==> line == text + [LF])
            && (|text| > 4080 ==> IsCut(text, line[..|line| - 1]))
            && (|text| > 4080 && ValidUtf8(text) ==>
                  exists c: nat :: 4077 <= c <= 4080 && line == text[..c] + Ascii(" [truncated]") + [LF] && ValidUtf8(text[..c]))
  {
    hide ValidUtf8, IsCut;
    var shown := if level == [] then Ascii("INFO") else level;
    var text := Ascii("[") + time + Ascii("] [") + shown + Ascii("] ") + Escaped(message);
    line := Bounded(text);
    assert LF !in time + level ==> LF !in text;
    if |text| > CUT_AT && LF !in text {
      CutAddsNoLineEnd(text, line);
    }
    assert (line + [LF])[..|line|] == line;
    line := line + [LF];
  }

  // ---------------------------------------------------------------- the two bounds

  function ByteCount(lines: seq<Bytes>): nat {
    if lines == [] then 0 else |lines[0]| + ByteCount(lines[1..])
  }

  function Joined(lines: seq<Bytes>): (r: Bytes)
    ensures |r| == ByteCount(lines)
  {
    if lines == [] then [] else lines[0] + Joined(lines[1..])
  }

  /** The longest suffix of the lines that fits. */
  function LongestSuffix(lines: seq<Bytes>, limit: nat): seq<Bytes> {
    if ByteCount(lines) <= limit then lines else LongestSuffix(lines[1..], limit)
  }

  /** The longest prefix of the lines that fits. */
  function LongestPrefix(lines: seq<Bytes>, limit: nat): seq<Bytes> {
    if lines == [] || |lines[0]| > limit then [] else [lines[0]] + LongestPrefix(lines[1..], limit - |lines[0]|)
  }

  lemma CountOfOneMore(lines: seq<Bytes>, x: Bytes)
    ensures ByteCount(lines + [x]) == ByteCount(lines) + |x|
    ensures Joined(lines + [x]) == Joined(lines) + x
  {
    CountOfSum(lines, [x]);
    assert Joined([x]) == x;
  }

  lemma {:induction false} CountOfSum(a: seq<Bytes>, b: seq<Bytes>)
    ensures ByteCount(a + b) == ByteCount(a) + ByteCount(b)
    ensures Joined(a + b) == Joined(a) + Joined(b)
  {
    if a == [] {
      assert a + b == b;
    } else {
      assert (a + b)[1..] == a[1..] + b;
      CountOfSum(a[1..], b);
    }
  }

  /** It is a suffix, it fits, and every longer suffix does not. */
  lemma {:induction false} SuffixIsLongest(lines: seq<Bytes>, limit: nat)
    ensures var r := LongestSuffix(lines, limit);
            && |r| <= |lines| && r == lines[|lines| - |r|..] && ByteCount(r) <= limit
            && forall k: nat :: k < |lines| - |r| ==> ByteCount(lines[k..]) > limit
  {
    var r := LongestSuffix(lines, limit);
    if ByteCount(lines) <= limit {
      assert lines[0..] == lines;
    } else {
      var rest := lines[1..];
      SuffixIsLongest(rest, limit);
      assert forall k: nat :: 0 < k <= |lines| ==> lines[k..] == rest[k - 1..];
      forall k: nat | k < |lines| - |r| ensures ByteCount(lines[k..]) > limit {
        if k == 0 {
          assert lines[0..] == lines;
        } else {
          assert lines[k..] == rest[k - 1..];
        }
      }
    }
  }

  /** It is a prefix, it fits, and every longer prefix does not. */
  lemma {:induction false} PrefixIsLongest(lines: seq<Bytes>, limit: nat)
    ensures var r := LongestPrefix(lines, limit);
            && r <= lines && ByteCount(r) <= limit
            && forall k: nat :: |r| < k <= |lines| ==> ByteCount(lines[..k]) > limit
  {
    var r := LongestPrefix(lines, limit);
    if lines != [] && |lines[0]| <= limit {
      PrefixIsLongest(lines[1..], limit - |lines[0]|);
      assert r[1..] == LongestPrefix(lines[1..], limit - |lines[0]|);
    }
    forall k: nat | |r| < k <= |lines| ensures ByteCount(lines[..k]) > limit {
      assert lines[..k][1..] == lines[1..][..k - 1];
    }
  }

  /** The ring may forget a line for good: trimming as lines come keeps what trimming at the end would. */
  lemma {:induction false} SuffixStep(lines: seq<Bytes>, x: Bytes, limit: nat)
    ensures LongestSuffix(lines + [x], limit) == LongestSuffix(LongestSuffix(lines, limit) + [x], limit)
  {
    if ByteCount(lines) > limit {
      CountOfOneMore(lines, x);
      assert (lines + [x])[1..] == lines[1..] + [x];
      SuffixStep(lines[1..], x, limit);
    }
  }

  /** Stopping at the first line that does not fit is keeping the longest prefix that does. */
  lemma {:induction false} PrefixStep(lines: seq<Bytes>, x: Bytes, limit: nat)
    ensures ByteCount(lines) <= limit ==> LongestPrefix(lines, limit) == lines
    ensures LongestPrefix(lines + [x], limit)
         == if ByteCount(lines) + |x| <= limit then lines + [x] else LongestPrefix(lines, limit)
  {
    var all := lines + [x];
    if lines == [] {
      assert all[1..] == [];
    } else {
      assert all[0] == lines[0] && all[1..] == lines[1..] + [x];
      if |lines[0]| <= limit {
        PrefixStep(lines[1..], x, limit - |lines[0]|);
        assert [lines[0]] + lines[1..] == lines;
        assert [lines[0]] + (lines[1..] + [x]) == all;
      }
    }
  }

  // ---------------------------------------------------------------- the journal

  datatype Warning = NoFile | OldLogsKept | WriteAfterClose | FileFull | WriteFailed | SyncFailed
                   | CloseSyncFailed | CloseFailed | ExportSyncFailed | ReadFailed | FileEmpty

  datatype WriteError = Unavailable | Closed | Disk

  /** What the file system did with one WriteString: bytes that reached the file, and whether it failed. */
  datatype Written = Written(n: nat, failed: bool)

  datatype Export = Export(content: Bytes, warnings: seq<Warning>, fallback: bool)

  class LogFile {
    const hasFile: bool
    var size: nat
    var lines: nat
    var ring: seq<Bytes>
    var ringBytes: int
    var warnings: seq<Warning>
    var closed: bool
    var truncated: bool
    var diskFault: bool
    // The bytes of the file as this program left them, and every line it was given.
    ghost var disk: Bytes
    ghost var history: seq<Bytes>

    ghost predicate Valid()
      reads this
    {
      && ring == LongestSuffix(history, MEMORY_LIMIT) && ringBytes == ByteCount(ring) <= MEMORY_LIMIT
      && size <= FILE_LIMIT
      && (hasFile && !diskFault ==> Faithful(history))
      && (truncated ==> hasFile)
      && WarningsFit()
    }

    /** A warning is given once, every disk fault gave one, and none says the file was found empty. */
    ghost predicate WarningsFit()
      reads this
    {
      && (diskFault ==> warnings != [])
      && FileEmpty !in warnings
      && forall i, j :: 0 <= i < j < |warnings| ==> warnings[i] != warnings[j]
    }

    /** Without a disk fault the file is the longest prefix of the history that fits. */
    ghost predicate Faithful(given: seq<Bytes>)
      reads this
    {
      var kept := LongestPrefix(given, FILE_LIMIT);
      && disk == Joined(kept) && size == |disk| && lines == |kept|
      && (truncated <==> ByteCount(given) > FILE_LIMIT)
    }

    /** OpenLogFile: without a file the journal lives in memory only. */
    constructor (created: bool, pruned: bool)
      ensures Valid() && hasFile == created && history == [] && !closed && !diskFault
      ensures warnings == if !created then [NoFile] else if !pruned then [OldLogsKept] else []
    {
      hasFile := created;
      size, lines, ring, ringBytes := 0, 0, [], 0;
      warnings := if !created then [NoFile] else if !pruned then [OldLogsKept] else [];
      closed, truncated, diskFault := false, false, false;
      disk, history := [], [];
    }

    method Warn(w: Warning)
      requires forall i, j :: 0 <= i < j < |warnings| ==> warnings[i] != warnings[j]
      modifies this`warnings
      ensures warnings == if w in old(warnings) then old(warnings) else old(warnings) + [w]
    {
      if w !in warnings {
        warnings := warnings + [w];
      }
    }

    /** The ring takes the line and drops its oldest ones until it fits again. */
    method Remember(line: Bytes)
      requires ringBytes == ByteCount(ring)
      modifies this`ring, this`ringBytes
      ensures ring == LongestSuffix(old(ring) + [line], MEMORY_LIMIT)
      ensures ringBytes == ByteCount(ring) <= MEMORY_LIMIT
    {
      CountOfOneMore(ring, line);
      ring := ring + [line];
      ringBytes := ringBytes + |line|;
      while ringBytes > MEMORY_LIMIT
        invariant ringBytes == ByteCount(ring)
        invariant LongestSuffix(ring, MEMORY_LIMIT) == LongestSuffix(old(ring) + [line], MEMORY_LIMIT)
        decreases |ring|
      {
        ringBytes := ringBytes - |ring[0]|;
        ring := ring[1..];
      }
    }

    /** The file's part of Write.  The line has already joined the history. */
    method Append(line: Bytes, io: Written, synced: bool, ghost before: seq<Bytes>) returns (e: Option<WriteError>)
      requires hasFile && io.n <= |line| && size <= FILE_LIMIT && WarningsFit()
      requires history == before + [line]
      requires !diskFault ==> Faithful(before)
      modifies this`size, this`lines, this`disk, this`truncated, this`diskFault, this`warnings
      ensures size <= FILE_LIMIT && WarningsFit()
      ensures !diskFault ==> Faithful(history)
      ensures e == Some(Closed) <==> closed
      ensures e != Some(Unavailable)
      ensures e == Some(Disk) <==> (!closed && !old(truncated) && old(size) + |line| <= 524288
                                    && (io.failed || io.n != |line| || ((old(lines) + 1) % 50 == 0 && !synced)))
      ensures var w := if closed then [WriteAfterClose] else if old(truncated) then []
                       else if old(size) + |line| > 524288 then [FileFull]
                       else if io.failed || io.n != |line| then [WriteFailed]
                       else if e.Some? then [SyncFailed] else [];
              warnings == if w == [] || w[0] in old(warnings) then old(warnings) else old(warnings) + w
      ensures diskFault <==> old(diskFault) || e.Some?
      ensures closed || old(truncated) ==> disk == old(disk)
      ensures truncated <==> old(truncated) || (!closed && old(size) + |line| > FILE_LIMIT)
      ensures e.None? && !truncated ==> disk == old(disk) + line
    {
      hide ByteCount, Joined, LongestPrefix;
      PrefixStep(before, line, FILE_LIMIT);
      CountOfOneMore(before, line);
      if closed {
        Warn(WriteAfterClose);
        diskFault := true;
        return Some(Closed);
      }
      if truncated {
        return None;
      }
      if size + |line| > FILE_LIMIT {
        truncated := true;
        Warn(FileFull);
        return None;
      }
      disk := disk + line[..io.n];
      if io.failed || io.n != |line| {
        Warn(WriteFailed);
        diskFault := true;
        return Some(Disk);
      }
      size := size + io.n;
      lines := lines + 1;
      if lines % SYNC_EVERY == 0 && !synced {
        Warn(SyncFailed);
        diskFault := true;
        return Some(Disk);
      }
      e := None;
    }

    /** Every line joins the history; the file takes it only while it is open, whole and has room. */
    method Write(line: Bytes, io: Written, synced: bool) returns (e: Option<WriteError>)
      requires Valid() && io.n <= |line|
      modifies this
      ensures Valid() && history == old(history) + [line]
      ensures closed == old(closed)
      ensures e == Some(Unavailable) <==> !hasFile
      ensures e == Some(Closed) <==> hasFile && closed
      ensures e == Some(Disk) <==> (hasFile && !closed && !old(truncated) && old(size) + |line| <= 524288
                                    && (io.failed || io.n != |line| || ((old(lines) + 1) % 50 == 0 && !synced)))
      ensures var w := if !hasFile then [] else if closed then [WriteAfterClose] else if old(truncated) then []
                       else if old(size) + |line| > 524288 then [FileFull]
                       else if io.failed || io.n != |line| then [WriteFailed]
                       else if e.Some? then [SyncFailed] else [];
              warnings == if w == [] || w[0] in old(warnings) then old(warnings) else old(warnings) + w
      ensures diskFault <==> old(diskFault) || (hasFile && e.Some?)
      ensures !hasFile || closed || old(truncated) ==> disk == old(disk)
      ensures truncated <==> old(truncated) || (hasFile && !closed && old(size) + |line| > FILE_LIMIT)
      ensures e.None? && !truncated ==> disk == old(disk) + line
    {
      hide ByteCount, Joined, LongestSuffix, LongestPrefix;
      SuffixStep(history, line, MEMORY_LIMIT);
      Remember(line);
      history := history + [line];
      if !hasFile {
        return Some(Unavailable);
      }
      e := Append(line, io, synced, old(history));
    }

    method Close(synced: bool, released: bool) returns (ok: bool)
      requires Valid()
      modifies this`closed, this`diskFault, this`warnings
      ensures Valid() && closed
      ensures ok <==> old(closed) || !hasFile || (synced && released)
      ensures diskFault <==> old(diskFault) || !ok
      ensures old(closed) || !hasFile ==> warnings == old(warnings)
      ensures CloseSyncFailed in warnings <==> CloseSyncFailed in old(warnings) || (!old(closed) && hasFile && !synced)
      ensures CloseFailed in warnings <==> CloseFailed in old(warnings) || (!old(closed) && hasFile && !released)
    {
      hide ByteCount, Joined, LongestSuffix, LongestPrefix;
      if closed {
        return true;
      }
      closed := true;
      if !hasFile {
        return true;
      }
      if !synced {
        Warn(CloseSyncFailed);
        diskFault := true;
      }
      if !released {
        Warn(CloseFailed);
        diskFault := true;
      }
      ok := synced && released;
    }

    /** The read of the file, when it counts, returns the bytes this program left in it. */
    ghost predicate Intact(read: Option<Bytes>)
      reads this
    {
      hasFile && !diskFault && read.Some? ==> read.value == disk
    }

    /** The exported text, before its last redaction: read is what ReadFile returns. */
    method Snapshot(synced: bool, read: Option<Bytes>) returns (r: Export)
      requires Valid()
      modifies this`diskFault, this`warnings
      ensures Valid()
      ensures diskFault <==> old(diskFault) || (hasFile && !closed && !synced)
      ensures old(Intact(read)) ==> r.content == ExportOf(history, hasFile && !diskFault && read.Some?)
      ensures old(Intact(read)) ==> r.warnings == warnings
      ensures !r.fallback && r.content != [] ==> read == Some(r.content)
      ensures r.fallback ==> r.content == Joined(ring)
      ensures var useFile := hasFile && !truncated && !diskFault && read.Some? && read.value != [];
              && r.content == (if useFile then read.value else Joined(ring))
              && (r.fallback <==> !useFile && Joined(ring) != [])
      ensures r.warnings == if r.fallback && hasFile && !truncated && warnings == [] then [FileEmpty] else warnings
      ensures ReadFailed in warnings <==>
                ReadFailed in old(warnings) || (hasFile && !truncated && !diskFault && read.None?)
      ensures ExportSyncFailed in warnings <==> ExportSyncFailed in old(warnings) || (hasFile && !closed && !synced)
    {
      if hasFile && !closed && !synced {
        Warn(ExportSyncFailed);
        diskFault := true;
      }
      PrefixStep(history, [], FILE_LIMIT);
      if hasFile && !truncated && !diskFault {
        if read.Some? && |read.value| > 0 {
          return Export(read.value, warnings, false);
        }
        if read.None? {
          Warn(ReadFailed);
        }
      }
      var content := Joined(ring);
      var shown := warnings;
      EmptyHistory(history);
      if content != [] && hasFile && !truncated && shown == [] {
        shown := shown + [FileEmpty];
      }
      r := Export(content, shown, content != []);
    }
  }

  /** What a report shows: all lines while the file is whole and holds them, else the newest that fit. */
  function ExportOf(history: seq<Bytes>, intact: bool): Bytes {
    if intact && ByteCount(history) <= FILE_LIMIT then Joined(history)
    else Joined(LongestSuffix(history, MEMORY_LIMIT))
  }

  lemma EmptyHistory(history: seq<Bytes>)
    ensures ByteCount(history) == 0 ==> Joined(LongestSuffix(history, MEMORY_LIMIT)) == []
  {
  }

  /** The export is the lines from k on, and one more would not have fitted. */
  ghost predicate ExportsFrom(history: seq<Bytes>, intact: bool, k: nat) {
    && k <= |history| && ExportOf(history, intact) == Joined(history[k..])
    && (k > 0 ==> ByteCount(history[k - 1..]) > 131_072 && (intact ==> ByteCount(history) > 524_288))
  }

  /** An export always ends with the newest line and never drops one that fits in memory. */
  lemma ExportKeepsNewest(history: seq<Bytes>, intact: bool)
    ensures exists k: nat :: ExportsFrom(history, intact, k)
    ensures ByteCount(history) <= 131_072 ==> ExportOf(history, intact) == Joined(history)
    ensures intact && ByteCount(history) <= 524_288 ==> ExportOf(history, intact) == Joined(history)
  {
    hide ByteCount, Joined, LongestSuffix;
    SuffixIsLongest(history, MEMORY_LIMIT);
    var k: nat := if intact && ByteCount(history) <= FILE_LIMIT then 0
                  else |history| - |LongestSuffix(history, MEMORY_LIMIT)|;
    assert history[0..] == history;
    assert k > 0 ==> ByteCount(history[k - 1..]) > MEMORY_LIMIT;
    assert ExportsFrom(history, intact, k);
  }

  // ---------------------------------------------------------------- old journals

  /** The journal at position k may be deleted. */
  predicate Removable(logs: seq<string>, k: nat, active: string, stuck: set<string>) {
    k < |logs| && logs[k] != active && logs[k] !in stuck
  }

  lemma AllButOne(logs: seq<string>, removed: set<nat>, active: string)
    requires forall i, j :: 0 <= i < j < |logs| ==> logs[i] != logs[j]
    requires forall k: nat :: k < |logs| && logs[k] != active ==> k in removed
    ensures |logs| <= |removed| + 1
  {
    if a: nat :| a < |logs| && logs[a] == active {
      SubsetSize(UpTo(|logs|), removed + {a});
    } else {
      SubsetSize(UpTo(|logs|), removed);
    }
  }

  /**
   Deletes journals, given oldest first, until ten are left; removed holds their positions.  The
   active one always stays; a journal that cannot be deleted is skipped.
   */
  method Prune(logs: seq<string>, active: string, stuck: set<string>) returns (removed: set<nat>, ok: bool)
    requires forall i, j :: 0 <= i < j < |logs| ==> logs[i] != logs[j]
    ensures forall k :: k in removed ==> Removable(logs, k, active, stuck)
    ensures |logs| - |removed| >= if |logs| > RETENTION then RETENTION else |logs|
    ensures forall i: nat, j: nat :: i < j && j in removed && Removable(logs, i, active, stuck) ==> i in removed
    ensures |logs| - |removed| > RETENTION ==> forall k: nat :: Removable(logs, k, active, stuck) ==> k in removed
    ensures ok ==> |logs| - |removed| <= RETENTION
    ensures ok <==> forall k: nat :: k < |logs| && logs[k] != active && logs[k] in stuck ==>
                      |logs| - |removed| <= RETENTION && forall j :: j in removed ==> j < k
  {
    removed, ok := {}, true;
    var excess, i := |logs| - RETENTION, 0;
    while i < |logs| && excess > 0
      invariant 0 <= i <= |logs|
      invariant forall k :: k in removed ==> k < i && Removable(logs, k, active, stuck)
      invariant forall k: nat :: k < i && Removable(logs, k, active, stuck) ==> k in removed
      invariant excess == |logs| - |removed| - RETENTION
      invariant if |logs| > RETENTION then excess >= 0 else removed == {}
      invariant ok ==> forall k: nat :: k < i && logs[k] != active ==> k in removed
      invariant !ok ==> exists k: nat :: k < i && logs[k] != active && logs[k] in stuck
                          && (excess > 0 || exists j :: j in removed && k < j)
    {
      if logs[i] == active {
      } else if logs[i] in stuck {
        ok := false;
      } else {
        removed := removed + {i};
        excess := excess - 1;
      }
      i := i + 1;
    }
    if excess > 0 && ok {
      AllButOne(logs, removed, active);
    }
  }
}
