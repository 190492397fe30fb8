/** The plaintext framing of one entry and the text format of one day-file line. */
module Framing {
  import opened Wrappers
  import opened Strings

  const NEWLINE: string := "\n"

  /** The separator between the wrapped key and the envelope on a day-file line. */
  const FIELD_SEP: string := " - "

  /** What `write` encrypts: the `%H:%M` timestamp, a newline, then the message. */
  function Frame(timestamp: string, message: string): (r: string)
    ensures NEWLINE[0] !in timestamp ==> Split(r, NEWLINE) == [timestamp] + Split(message, NEWLINE)
  {
    SplitAfterHead(timestamp, NEWLINE, message);
    timestamp + NEWLINE + message
  }

  /** What `read` does to a decrypted plaintext: the text before the first
      newline is the time, and the remaining pieces re-joined with newlines are
      the message. A plaintext without a newline is all time and an empty message. */
  function Unframe(plaintext: string): (r: (string, string))
    ensures NEWLINE[0] !in r.0
    ensures NEWLINE[0] in plaintext ==> r.0 + NEWLINE + r.1 == plaintext
    ensures NEWLINE[0] !in plaintext ==> r == (plaintext, "")
  {
    var parts := Split(plaintext, NEWLINE);
    var r := (parts[0], Join(NEWLINE, parts[1..]));
    UnframeFacts(plaintext);
    r
  }

  lemma UnframeFacts(plaintext: string)
    ensures var parts := Split(plaintext, NEWLINE);
      && NEWLINE[0] !in parts[0]
      && (NEWLINE[0] in plaintext ==> parts[0] + NEWLINE + Join(NEWLINE, parts[1..]) == plaintext)
      && (NEWLINE[0] !in plaintext ==> parts == [plaintext])
  {
    var j := FindFrom(plaintext, NEWLINE, 0);
    NoNewlineBefore(plaintext, j);
    if j < |plaintext| {
      UnframeRejoins(plaintext, j);
    } else {
      assert plaintext[..j] == plaintext;
      SplitNoSep(plaintext, NEWLINE);
    }
  }

  /** A plaintext holding a newline is its first piece, a newline, and the
      remaining pieces joined back. */
  lemma UnframeRejoins(plaintext: string, j: nat)
    requires j == FindFrom(plaintext, NEWLINE, 0) && j < |plaintext|
    ensures var parts := Split(plaintext, NEWLINE);
      && parts[0] == plaintext[..j]
      && parts[0] + NEWLINE + Join(NEWLINE, parts[1..]) == plaintext
  {
    var head, rest := plaintext[..j], plaintext[j + 1..];
    SplitAtFirst(plaintext, NEWLINE, j);
    var tail := Split(rest, NEWLINE);
    var parts := Split(plaintext, NEWLINE);
    assert parts[0] == head && parts[1..] == tail by {
      assert parts == [head] + tail;
    }
    JoinSplit(rest, NEWLINE);
    CutAt(plaintext, NEWLINE, j);
  }

  /** Before the first newline `FindFrom` reports there is none. */
  lemma NoNewlineBefore(s: string, j: nat)
    requires j <= |s|
    requires forall i :: 0 <= i < j ==> !OccursAt(s, NEWLINE, i)
    ensures NEWLINE[0] !in s[..j]
  {
    forall i | 0 <= i < j ensures s[i] != NEWLINE[0] {
      assert !OccursAt(s, NEWLINE, i);
      assert s[i..i + 1] == [s[i]];
    }
  }

  /** A timestamp without a newline and any message, newlines included, come
      back unchanged from the framing `read` undoes. */
  lemma UnframeFrame(timestamp: string, message: string)
    requires NEWLINE[0] !in timestamp
    ensures Unframe(Frame(timestamp, message)) == (timestamp, message)
  {
    SplitAfterHead(timestamp, NEWLINE, message);
    JoinSplit(message, NEWLINE);
    assert ([timestamp] + Split(message, NEWLINE))[1..] == Split(message, NEWLINE);
  }

  /** A timestamp that holds a newline is cut at it: the framing then does not
      round-trip. */
  lemma UnframeCutsTimestamp(timestamp: string, message: string)
    requires NEWLINE[0] in timestamp
    ensures Unframe(Frame(timestamp, message)).0 != timestamp
  {
  }

  /** One day-file line as `write` produces it with its two writes. */
  function EntryLine(wrappedKey: string, envelope: string): (r: string)
    ensures ' ' !in wrappedKey && ' ' !in envelope ==> Split(r, FIELD_SEP) == [wrappedKey, envelope + NEWLINE]
  {
    SplitAfterHead(wrappedKey, FIELD_SEP, envelope + NEWLINE);
    SplitNoSep(envelope + NEWLINE, FIELD_SEP);
    assert wrappedKey + FIELD_SEP + (envelope + NEWLINE) == wrappedKey + FIELD_SEP + envelope + NEWLINE;
    wrappedKey + FIELD_SEP + envelope + NEWLINE
  }

  /** `k64, m64 = line.split(' - ')`: the unpacking fails (a ValueError in the
      source) unless the split yields exactly two pieces, that is unless the
      text after the first `' - '` holds no other. The line is cut at its first
      `' - '`. */
  function ParseEntryLine(line: string): (r: Option<(string, string)>)
    ensures var j := FindFrom(line, FIELD_SEP, 0);
      && (r.Some? <==> j < |line| && Free(line[j + |FIELD_SEP|..], FIELD_SEP))
      && (r.Some? ==> r.value == (line[..j], line[j + |FIELD_SEP|..]))
    ensures r.Some? ==> Free(r.value.0, FIELD_SEP) && Free(r.value.1, FIELD_SEP)
    ensures r.Some? ==> r.value.0 + FIELD_SEP + r.value.1 == line
  {
    var parts := Split(line, FIELD_SEP);
    ParseFacts(line);
    if |parts| == 2 then Some((parts[0], parts[1])) else None
  }

  lemma ParseFacts(line: string)
    ensures var parts := Split(line, FIELD_SEP);
      var j := FindFrom(line, FIELD_SEP, 0);
      && (|parts| == 2 <==> j < |line| && Free(line[j + |FIELD_SEP|..], FIELD_SEP))
      && (|parts| == 2 ==> parts[0] == line[..j] && parts[1] == line[j + |FIELD_SEP|..])
      && (|parts| == 2 ==> parts[0] + FIELD_SEP + parts[1] == line)
      && Free(line[..j], FIELD_SEP)
  {
    var parts := Split(line, FIELD_SEP);
    var j := FindFrom(line, FIELD_SEP, 0);
    FreePrefix(line, FIELD_SEP, j);
    if j < |line| {
      var rest := line[j + |FIELD_SEP|..];
      SplitAtFirst(line, FIELD_SEP, j);
      SplitOnePiece(rest, FIELD_SEP);
      if |parts| == 2 {
        SplitFree(rest, FIELD_SEP);
        CutAt(line, FIELD_SEP, j);
      }
    }
  }

  /** A line with exactly one `' - '` unpacks into the text before it and the
      text after it. */
  lemma ParseEntryLineOneSep(line: string, i: nat)
    requires OccursAt(line, FIELD_SEP, i)
    requires forall k :: 0 <= k <= |line| && OccursAt(line, FIELD_SEP, k) ==> k == i
    ensures ParseEntryLine(line) == Some((line[..i], line[i + |FIELD_SEP|..]))
  {
    var j := FindFrom(line, FIELD_SEP, 0);
    assert j == i;
    var rest := line[i + |FIELD_SEP|..];
    forall m | 0 <= m <= |rest| && OccursAt(rest, FIELD_SEP, m) ensures false {
      assert line[i + |FIELD_SEP| + m..i + |FIELD_SEP| + m + |FIELD_SEP|] == rest[m..m + |FIELD_SEP|];
      assert OccursAt(line, FIELD_SEP, i + |FIELD_SEP| + m);
    }
  }

  /** Fields that hold no space (the base64 alphabet has none) are recovered
      from a line, the envelope with the line's newline still attached. */
  lemma ParseEntryLineRoundTrip(wrappedKey: string, envelope: string)
    requires ' ' !in wrappedKey && ' ' !in envelope
    ensures ParseEntryLine(EntryLine(wrappedKey, envelope)) == Some((wrappedKey, envelope + NEWLINE))
  {
    assert EntryLine(wrappedKey, envelope) == wrappedKey + FIELD_SEP + (envelope + NEWLINE);
    SplitAfterHead(wrappedKey, FIELD_SEP, envelope + NEWLINE);
    SplitNoSep(envelope + NEWLINE, FIELD_SEP);
  }
}
