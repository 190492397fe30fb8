/** What `read` gives back: each line `write` produced decrypts to the entry
    written, the ledger gains the day, a default read ends with the newest
    entry, and the output has one `(date, None)` header per selected date. */
module ReadProperties {
  import opened Wrappers
  import opened Strings
  import opened Padding
  import opened Framing
  import opened Crypto
  import opened FileStore
  import opened Notelock
  import opened WriteProperties

  /** Extends a successful decode by `more`; an error stays as it is. */
  function Extend<T>(r: Result<seq<T>, Error>, more: seq<T>): Result<seq<T>, Error>
  {
    match r
    case Ok(v) => Ok(v + more)
    case Err(e) => Err(e)
  }

  lemma Base64HasNoSpaceOrNewline(t: string)
    requires IsBase64(t)
    ensures ' ' !in t && '\n' !in t
  {
  }

  /** The ledger line `write` appends decodes to the day it was written. */
  lemma LedgerLineRoundTrip(s: Suite, k: RsaKey, today: string)
    requires Sound(s) && k.IsPrivate()
    ensures LedgerDate(s, k, LedgerLine(s, PublicPart(k), today)) == Ok(today)
  {
    var ct := s.oaepEncrypt(PublicPart(k), today);
    var line := LedgerLine(s, PublicPart(k), today);
    assert line[..SliceIndex(-1, |line|)] == s.b64Encode(ct);
    B64DecodeIgnoresTrailer(s, ct, []);
    assert s.b64Encode(ct) + [] == s.b64Encode(ct);
    assert B64Decode(s, s.b64Encode(ct)) == Some(ct);
    assert s.oaepDecrypt(k, ct) == Some(today);
  }

  /** `DecryptEntry` when every step succeeds. */
  lemma DecryptEntrySteps(s: Suite, k: RsaKey, line: string, wrapped: string, envelope: string,
                          keyCt: string, aesKey: string, iv: string, ct: string, padded: string)
    requires ParseEntryLine(line) == Some((wrapped, envelope))
    requires B64Decode(s, wrapped) == Some(keyCt)
    requires s.oaepDecrypt(k, keyCt) == Some(aesKey)
    requires B64Decode(s, envelope) == Some(iv + ct) && |iv| == BLOCK_SIZE
    requires s.cbcDecrypt(aesKey, iv, ct) == Some(padded) && padded != []
    ensures DecryptEntry(s, k, line) == Ok(Item(Unframe(Unpad(padded)).0, Some(Unframe(Unpad(padded)).1)))
  {
    var enc := iv + ct;
    assert SliceIndex(BLOCK_SIZE, |enc|) == BLOCK_SIZE;
    assert enc[..BLOCK_SIZE] == iv && enc[BLOCK_SIZE..] == ct;
  }

  /** The day-file line `write` appends decrypts to the time and message written. */
  lemma EntryLineRoundTrip(s: Suite, k: RsaKey, aesKey: string, iv: string, clock: string, message: string)
    requires Sound(s) && k.IsPrivate()
    requires |aesKey| == AES_KEY_BYTES && |iv| == BLOCK_SIZE && NEWLINE[0] !in clock
    ensures DecryptEntry(s, k, EntryLine(WrappedKey(s, PublicPart(k), aesKey),
                                         Envelope(s, aesKey, iv, Frame(clock, message))))
            == Ok(Item(clock, Some(message)))
  {
    var plaintext := Frame(clock, message);
    var keyCt := s.oaepEncrypt(PublicPart(k), aesKey);
    var ct := s.cbcEncrypt(aesKey, iv, Pad(plaintext));
    var wrapped := s.b64Encode(keyCt);
    var envelope := s.b64Encode(iv + ct);
    assert IsBase64(wrapped) && IsBase64(envelope);
    Base64HasNoSpaceOrNewline(wrapped);
    Base64HasNoSpaceOrNewline(envelope);
    ParseEntryLineRoundTrip(wrapped, envelope);
    B64DecodeIgnoresTrailer(s, keyCt, []);
    assert wrapped + [] == wrapped;
    B64DecodeIgnoresTrailer(s, iv + ct, NEWLINE);
    assert s.oaepDecrypt(k, keyCt) == Some(aesKey);
    assert |Pad(plaintext)| % BLOCK_SIZE == 0;
    assert s.cbcDecrypt(aesKey, iv, ct) == Some(Pad(plaintext));
    UnpadPad(plaintext);
    UnframeFrame(clock, message);
    DecryptEntrySteps(s, k, EntryLine(wrapped, envelope), wrapped, envelope + NEWLINE,
                      keyCt, aesKey, iv, ct, Pad(plaintext));
  }

  /** A day file decodes exactly when every one of its lines decrypts, and then
      into one item per line, in file order. */
  lemma {:induction false} DecodeDayPerLine(s: Suite, k: RsaKey, lines: seq<string>)
    ensures DecodeDay(s, k, lines).Ok? <==>
      forall i :: 0 <= i < |lines| ==> DecryptEntry(s, k, lines[i]).Ok?
    ensures DecodeDay(s, k, lines).Ok? ==>
      && |DecodeDay(s, k, lines).value| == |lines|
      && forall i :: 0 <= i < |lines| ==> DecodeDay(s, k, lines).value[i] == DecryptEntry(s, k, lines[i]).value
    decreases |lines|
  {
    if lines != [] {
      var init, last := lines[..|lines| - 1], lines[|lines| - 1];
      assert lines == init + [last];
      CollectSnoc(EntryStep(s, k), init, last);
      var entry := DecryptEntry(s, k, last);
      assert EntryStep(s, k)(last) == if entry.Ok? then Ok([entry.value]) else Err(entry.error);
      DecodeDayPerLine(s, k, init);
      var before := DecodeDay(s, k, init);
      if before.Err? {
        var i :| 0 <= i < |init| && DecryptEntry(s, k, init[i]).Err?;
        assert lines[i] == init[i];
      } else if entry.Ok? {
        var items := before.value + [entry.value];
        assert DecodeDay(s, k, lines) == Ok(items);
        forall i | 0 <= i < |lines| ensures items[i] == DecryptEntry(s, k, lines[i]).value {
          if i < |init| {
            assert lines[i] == init[i];
          }
        }
      }
    }
  }

  /** After a write, the ledger decodes to what it decoded to before and the
      day written; the day file decodes to its old entries and the new one. A
      ledger or day file that failed to decode still fails the same way. */
  lemma WriteExtendsLedgerAndDay(s: Suite, d: Disk, book: string, words: seq<string>,
                                 today: string, clock: string, newPassword: string,
                                 freshKey: RsaKey, aesKey: string, iv: string,
                                 password: string, k: RsaKey)
    requires Sound(s) && WellFormed(d)
    requires |aesKey| == AES_KEY_BYTES && |iv| == BLOCK_SIZE && NEWLINE[0] !in clock
    requires var b := SHash(s, book);
      if b in d.dirs then Unlocks(s, d, b, password, k)
      else password == newPassword && k == freshKey && k.IsPrivate()
    ensures var b := SHash(s, book);
      var out := WriteSpec(s, d, book, words, today, clock, newPassword, freshKey, aesKey, iv);
      var day := DayFile(s, b, today);
      var ledger := Path(b, LEDGER_FILE);
      && out.status.Ok?
      && Unlocks(s, out.disk, b, password, k)
      && ledger in out.disk.files && day in out.disk.files
      && DecodeLedger(s, k, LinesOf(out.disk, ledger)) == Extend(DecodeLedger(s, k, LinesOf(d, ledger)), [today])
      && DecodeDay(s, k, LinesOf(out.disk, day))
         == Extend(DecodeDay(s, k, LinesOf(d, day)), [Item(clock, Some(Join(" ", words)))])
  {
    var b := SHash(s, book);
    var day := DayFile(s, b, today);
    var ledger := Path(b, LEDGER_FILE);
    var ready := Ready(s, d, b, newPassword, freshKey);
    if b in d.dirs {
      WriteKeepsUnlocks(s, d, book, words, today, clock, newPassword, freshKey, aesKey, iv, b, password, k);
    } else {
      NewBookIsUnlocked(s, d, book, words, today, clock, newPassword, freshKey, aesKey, iv);
      assert day !in d.files && ledger !in d.files;
    }
    ReadyKeepsOthers(s, d, b, newPassword, freshKey, day);
    ReadyKeepsOthers(s, d, b, newPassword, freshKey, ledger);
    var publicKey := PublicPart(k);
    assert s.importPublic(Content(ready.files[Path(b, PUBLIC_KEY_FILE)])) == Some(publicKey);
    var message := Join(" ", words);
    var line := EntryLine(WrappedKey(s, publicKey, aesKey), Envelope(s, aesKey, iv, Frame(clock, message)));
    var out := WriteSpec(s, d, book, words, today, clock, newPassword, freshKey, aesKey, iv);
    var shapeKey := WriteSpecShape(s, d, book, words, today, clock, newPassword, freshKey, aesKey, iv);
    TwoAppends(ready, day, ledger, line, LedgerLine(s, publicKey, today));
    assert Unlocks(s, ready, b, password, k);
    assert LinesOf(out.disk, day) == LinesOf(d, day) + [line];
    assert LinesOf(out.disk, ledger) == LinesOf(d, ledger) + [LedgerLine(s, publicKey, today)];
    EntryLineRoundTrip(s, k, aesKey, iv, clock, message);
    LedgerLineRoundTrip(s, k, today);
    CollectSnoc(EntryStep(s, k), LinesOf(d, day), line);
    CollectSnoc(LedgerStep(s, k), LinesOf(d, ledger), LedgerLine(s, publicKey, today));
  }

  /** `read` once the key is unlocked and the ledger decoded. */
  lemma ReadSpecSteps(s: Suite, d: Disk, book: string, password: string, options: seq<string>,
                      k: RsaKey, dates: seq<string>)
    requires Unlock(s, d, SHash(s, book), password) == Ok(k)
    requires Path(SHash(s, book), LEDGER_FILE) in d.files
    requires DecodeLedger(s, k, d.files[Path(SHash(s, book), LEDGER_FILE)]) == Ok(dates)
    ensures ReadSpec(s, d, book, password, options) == Assemble(s, d, SHash(s, book), k, Select(dates, options))
  {
  }

  /** Assembling a single date gives that date's block. */
  lemma AssembleOne(s: Suite, d: Disk, bookname: string, k: RsaKey, date: string)
    ensures Assemble(s, d, bookname, k, [date]) == DayBlock(s, d, bookname, k, date)
  {
    CollectSnoc(DayStep(s, d, bookname, k), [], date);
    assert [] + [date] == [date];
    match DayBlock(s, d, bookname, k, date)
    case Ok(block) => assert [] + block == block;
    case Err(_) =>
  }

  /** A read without option `'a'` of a notebook whose ledger ends with `date`
      shows that date's header followed by its entries. */
  lemma ReadLastDay(s: Suite, d: Disk, book: string, password: string, options: seq<string>,
                    k: RsaKey, dates: seq<string>, date: string, entries: seq<Item>)
    requires "a" !in options
    requires Unlock(s, d, SHash(s, book), password) == Ok(k)
    requires Path(SHash(s, book), LEDGER_FILE) in d.files
    requires DecodeLedger(s, k, d.files[Path(SHash(s, book), LEDGER_FILE)]) == Ok(dates + [date])
    requires DayFile(s, SHash(s, book), date) in d.files
    requires DecodeDay(s, k, d.files[DayFile(s, SHash(s, book), date)]) == Ok(entries)
    ensures ReadSpec(s, d, book, password, options) == Ok([Item(date, None)] + entries)
  {
    var b := SHash(s, book);
    ReadSpecSteps(s, d, book, password, options, k, dates + [date]);
    assert Select(dates + [date], options) == [date];
    AssembleOne(s, d, b, k, date);
  }

  /** A read without option `'a'` right after a write shows the day written:
      its header, the entries it already had, and the new entry last. */
  lemma ReadLatestAfterWrite(s: Suite, d: Disk, book: string, words: seq<string>,
                             today: string, clock: string, newPassword: string,
                             freshKey: RsaKey, aesKey: string, iv: string,
                             password: string, k: RsaKey, options: seq<string>, oldEntries: seq<Item>)
    requires Sound(s) && WellFormed(d)
    requires |aesKey| == AES_KEY_BYTES && |iv| == BLOCK_SIZE && NEWLINE[0] !in clock
    requires var b := SHash(s, book);
      if b in d.dirs then Unlocks(s, d, b, password, k)
      else password == newPassword && k == freshKey && k.IsPrivate()
    requires "a" !in options
    requires var b := SHash(s, book);
      DecodeLedger(s, k, LinesOf(d, Path(b, LEDGER_FILE))).Ok? && DecodeDay(s, k, LinesOf(d, DayFile(s, b, today))) == Ok(oldEntries)
    ensures var out := WriteSpec(s, d, book, words, today, clock, newPassword, freshKey, aesKey, iv);
      ReadSpec(s, out.disk, book, password, options) == Ok([Item(today, None)] + oldEntries + [Item(clock, Some(Join(" ", words)))])
  {
    var out := WriteSpec(s, d, book, words, today, clock, newPassword, freshKey, aesKey, iv);
    WriteExtendsLedgerAndDay(s, d, book, words, today, clock, newPassword, freshKey, aesKey, iv, password, k);
    ReadAfterExtend(s, d, out.disk, book, password, options, k, today, Item(clock, Some(Join(" ", words))), oldEntries);
  }

  /** `ReadLastDay` for a disk `e` whose ledger and day file extend those of `d`. */
  lemma ReadAfterExtend(s: Suite, d: Disk, e: Disk, book: string, password: string, options: seq<string>,
                        k: RsaKey, today: string, entry: Item, oldEntries: seq<Item>)
    requires "a" !in options
    requires var b := SHash(s, book);
      && Unlocks(s, e, b, password, k)
      && Path(b, LEDGER_FILE) in e.files && DayFile(s, b, today) in e.files
      && DecodeLedger(s, k, LinesOf(d, Path(b, LEDGER_FILE))).Ok?
      && DecodeLedger(s, k, LinesOf(e, Path(b, LEDGER_FILE))) == Extend(DecodeLedger(s, k, LinesOf(d, Path(b, LEDGER_FILE))), [today])
      && DecodeDay(s, k, LinesOf(d, DayFile(s, b, today))) == Ok(oldEntries)
      && DecodeDay(s, k, LinesOf(e, DayFile(s, b, today))) == Extend(DecodeDay(s, k, LinesOf(d, DayFile(s, b, today))), [entry])
    ensures ReadSpec(s, e, book, password, options) == Ok([Item(today, None)] + oldEntries + [entry])
  {
    var b := SHash(s, book);
    var ledger, day := Path(b, LEDGER_FILE), DayFile(s, b, today);
    var dates := DecodeLedger(s, k, LinesOf(d, ledger)).value;
    assert DecodeLedger(s, k, e.files[ledger]) == Ok(dates + [today]) by {
      assert e.files[ledger] == LinesOf(e, ledger);
    }
    assert DecodeDay(s, k, e.files[day]) == Ok(oldEntries + [entry]) by {
      assert e.files[day] == LinesOf(e, day);
    }
    ReadLastDay(s, e, book, password, options, k, dates, today, oldEntries + [entry]);
    assert [Item(today, None)] + (oldEntries + [entry]) == [Item(today, None)] + oldEntries + [entry];
  }

  /** What `read` prints right after a write, without option `'a'`, is the
      entry just written. */
  lemma ReadPrintsWrittenEntry(s: Suite, d: Disk, book: string, words: seq<string>,
                               today: string, clock: string, newPassword: string,
                               freshKey: RsaKey, aesKey: string, iv: string,
                               password: string, k: RsaKey, options: seq<string>, oldEntries: seq<Item>)
    requires Sound(s) && WellFormed(d)
    requires |aesKey| == AES_KEY_BYTES && |iv| == BLOCK_SIZE && NEWLINE[0] !in clock
    requires var b := SHash(s, book);
      if b in d.dirs then Unlocks(s, d, b, password, k)
      else password == newPassword && k == freshKey && k.IsPrivate()
    requires "a" !in options
    requires var b := SHash(s, book);
      DecodeLedger(s, k, LinesOf(d, Path(b, LEDGER_FILE))).Ok? && DecodeDay(s, k, LinesOf(d, DayFile(s, b, today))) == Ok(oldEntries)
    ensures var out := WriteSpec(s, d, book, words, today, clock, newPassword, freshKey, aesKey, iv);
      var r := ReadSpec(s, out.disk, book, password, options);
      r.Ok? && Printed(r.value) == Ok(Item(clock, Some(Join(" ", words))))
  {
    ReadLatestAfterWrite(s, d, book, words, today, clock, newPassword, freshKey, aesKey, iv, password, k, options, oldEntries);
    PrintedLast([Item(today, None)] + oldEntries, Item(clock, Some(Join(" ", words))));
  }

  lemma PrintedLast(items: seq<Item>, last: Item)
    ensures Printed(items + [last]) == Ok(last)
  {
  }

  /** The dates of the `(date, None)` headers of an output, in order. */
  function Headers(items: seq<Item>): seq<string>
  {
    if items == [] then []
    else (if items[0].text.None? then [items[0].stamp] else []) + Headers(items[1..])
  }

  lemma {:induction false} HeadersAppend(a: seq<Item>, b: seq<Item>)
    ensures Headers(a + b) == Headers(a) + Headers(b)
    decreases |a|
  {
    if a == [] {
      assert a + b == b;
    } else {
      assert (a + b)[0] == a[0] && (a + b)[1..] == a[1..] + b;
      HeadersAppend(a[1..], b);
    }
  }

  /** A decoded day file holds entries only, no headers. */
  lemma {:induction false} DecodeDayHasNoHeaders(s: Suite, k: RsaKey, lines: seq<string>)
    requires DecodeDay(s, k, lines).Ok?
    ensures Headers(DecodeDay(s, k, lines).value) == []
    decreases |lines|
  {
    if lines != [] {
      var init := lines[..|lines| - 1];
      var last := lines[|lines| - 1];
      assert lines == init + [last];
      CollectSnoc(EntryStep(s, k), init, last);
      DecodeDayHasNoHeaders(s, k, init);
      var item := DecryptEntry(s, k, last).value;
      assert DecryptEntry(s, k, last).Ok?;
      HeadersAppend(DecodeDay(s, k, init).value, [item]);
      assert item.text.Some?;
    }
  }

  /** The output of assembling the selected dates has one header per date, in
      the order the dates were selected. */
  lemma {:induction false} AssembleHeaders(s: Suite, d: Disk, bookname: string, k: RsaKey, dates: seq<string>)
    requires Assemble(s, d, bookname, k, dates).Ok?
    ensures Headers(Assemble(s, d, bookname, k, dates).value) == dates
    decreases |dates|
  {
    if dates != [] {
      var init := dates[..|dates| - 1];
      var date := dates[|dates| - 1];
      assert dates == init + [date];
      CollectSnoc(DayStep(s, d, bookname, k), init, date);
      AssembleHeaders(s, d, bookname, k, init);
      var lines := d.files[DayFile(s, bookname, date)];
      DecodeDayHasNoHeaders(s, k, lines);
      var block := [Item(date, None)] + DecodeDay(s, k, lines).value;
      assert DayBlock(s, d, bookname, k, date) == Ok(block);
      HeadersAppend([Item(date, None)], DecodeDay(s, k, lines).value);
      HeadersAppend(Assemble(s, d, bookname, k, init).value, block);
    }
  }

  /** A successful read has a header for each selected ledger date, in ledger
      order and with repeats: the last date alone without `'a'`, every date with it. */
  lemma ReadSelectsDays(s: Suite, d: Disk, book: string, password: string, options: seq<string>)
    requires ReadSpec(s, d, book, password, options).Ok?
    ensures var b := SHash(s, book);
      && Unlock(s, d, b, password).Ok?
      && LedgerDates(s, d, b, Unlock(s, d, b, password).value).Ok?
      && var dates := LedgerDates(s, d, b, Unlock(s, d, b, password).value).value;
         Headers(ReadSpec(s, d, book, password, options).value) == Select(dates, options)
  {
    var b := SHash(s, book);
    var k := Unlock(s, d, b, password).value;
    AssembleHeaders(s, d, b, k, Select(LedgerDates(s, d, b, k).value, options));
  }

  /** Every date of a successful assembly has a day block that opens and decodes. */
  lemma {:induction false} AssembleOkEach(s: Suite, d: Disk, bookname: string, k: RsaKey, dates: seq<string>)
    requires Assemble(s, d, bookname, k, dates).Ok?
    ensures forall date :: date in dates ==> DayBlock(s, d, bookname, k, date).Ok?
    decreases |dates|
  {
    if dates != [] {
      var init, last := dates[..|dates| - 1], dates[|dates| - 1];
      assert dates == init + [last];
      CollectSnoc(DayStep(s, d, bookname, k), init, last);
      assert DayStep(s, d, bookname, k)(last) == DayBlock(s, d, bookname, k, last);
      AssembleOkEach(s, d, bookname, k, init);
    }
  }

  /** Dates whose day blocks all open and decode assemble successfully. */
  lemma {:induction false} AssembleOkAll(s: Suite, d: Disk, bookname: string, k: RsaKey, dates: seq<string>)
    requires forall date :: date in dates ==> DayBlock(s, d, bookname, k, date).Ok?
    ensures Assemble(s, d, bookname, k, dates).Ok?
    decreases |dates|
  {
    if dates != [] {
      var init, last := dates[..|dates| - 1], dates[|dates| - 1];
      assert dates == init + [last];
      assert last in dates;
      assert DayStep(s, d, bookname, k)(last) == DayBlock(s, d, bookname, k, last);
      AssembleOkAll(s, d, bookname, k, init);
      CollectSnoc(DayStep(s, d, bookname, k), init, last);
    }
  }

  /** Day blocks that decoded on `d` still decode on a disk `e` that keeps the
      notebook's files other than `today`'s day file and the ledger, provided
      `today`'s day file decodes on `e`. */
  lemma DayBlocksSurvive(s: Suite, d: Disk, e: Disk, bookname: string, k: RsaKey,
                         dates: seq<string>, today: string)
    requires Sound(s)
    requires forall date :: date in dates ==> DayBlock(s, d, bookname, k, date).Ok?
    requires forall q :: q in d.files && q.dir == bookname && q != DayFile(s, bookname, today) && q.name != LEDGER_FILE ==>
      q in e.files && e.files[q] == d.files[q]
    requires DayFile(s, bookname, today) in e.files && DecodeDay(s, k, e.files[DayFile(s, bookname, today)]).Ok?
    ensures forall date :: date in dates + [today] ==> DayBlock(s, e, bookname, k, date).Ok?
  {
    forall date | date in dates + [today] ensures DayBlock(s, e, bookname, k, date).Ok? {
      var f := DayFile(s, bookname, date);
      if f != DayFile(s, bookname, today) {
        assert date in dates;
        assert DayBlock(s, d, bookname, k, date).Ok?;
        assert f in d.files && f.dir == bookname && f.name != LEDGER_FILE;
      }
    }
  }

  /** A read with option `'a'` of a disk `e` whose ledger lists `dates` then
      `today`, where every old day still decodes and `today`'s file decodes,
      succeeds with one header per ledger line. */
  lemma ReadAllOn(s: Suite, d: Disk, e: Disk, book: string, password: string, options: seq<string>,
                  k: RsaKey, oldDates: seq<string>, today: string)
    requires Sound(s) && "a" in options
    requires var b := SHash(s, book);
      && Unlock(s, e, b, password) == Ok(k)
      && Path(b, LEDGER_FILE) in e.files
      && DecodeLedger(s, k, e.files[Path(b, LEDGER_FILE)]) == Ok(oldDates + [today])
      && Assemble(s, d, b, k, oldDates).Ok?
      && (forall q :: q in d.files && q.dir == b && q != DayFile(s, b, today) && q.name != LEDGER_FILE ==>
            q in e.files && e.files[q] == d.files[q])
      && DayFile(s, b, today) in e.files && DecodeDay(s, k, e.files[DayFile(s, b, today)]).Ok?
    ensures var r := ReadSpec(s, e, book, password, options);
      r.Ok? && Headers(r.value) == oldDates + [today]
  {
    var b := SHash(s, book);
    AssembleOkEach(s, d, b, k, oldDates);
    DayBlocksSurvive(s, d, e, b, k, oldDates, today);
    AssembleOkAll(s, e, b, k, oldDates + [today]);
    ReadSpecSteps(s, e, book, password, options, k, oldDates + [today]);
    AssembleHeaders(s, e, b, k, oldDates + [today]);
  }

  /** When the old read with option `'a'` succeeded, every day its ledger lists
      opens and decodes. */
  lemma OldReadAssembles(s: Suite, d: Disk, book: string, password: string, options: seq<string>,
                         k: RsaKey, oldDates: seq<string>)
    requires "a" in options
    requires Unlock(s, d, SHash(s, book), password) == Ok(k)
    requires DecodeLedger(s, k, LinesOf(d, Path(SHash(s, book), LEDGER_FILE))) == Ok(oldDates)
    requires ReadSpec(s, d, book, password, options).Ok?
    ensures Assemble(s, d, SHash(s, book), k, oldDates).Ok?
  {
    ReadSpecSteps(s, d, book, password, options, k, oldDates);
  }

  /** Reading every day right after a write succeeds whenever every day of the
      old ledger still decoded and today's file did, and shows a header for
      each ledger line, the new one last: a day that already had entries is
      shown a second time, since the ledger is not deduplicated. */
  lemma ReadAllAfterWrite(s: Suite, d: Disk, book: string, words: seq<string>,
                          today: string, clock: string, newPassword: string,
                          freshKey: RsaKey, aesKey: string, iv: string,
                          password: string, k: RsaKey, options: seq<string>, oldDates: seq<string>)
    requires Sound(s) && WellFormed(d)
    requires |aesKey| == AES_KEY_BYTES && |iv| == BLOCK_SIZE && NEWLINE[0] !in clock
    requires var b := SHash(s, book);
      if b in d.dirs then Unlocks(s, d, b, password, k)
      else password == newPassword && k == freshKey && k.IsPrivate()
    requires "a" in options
    requires var b := SHash(s, book);
      && DecodeLedger(s, k, LinesOf(d, Path(b, LEDGER_FILE))) == Ok(oldDates)
      && Assemble(s, d, b, k, oldDates).Ok?
      && DecodeDay(s, k, LinesOf(d, DayFile(s, b, today))).Ok?
    ensures var out := WriteSpec(s, d, book, words, today, clock, newPassword, freshKey, aesKey, iv);
      var r := ReadSpec(s, out.disk, book, password, options);
      r.Ok? && Headers(r.value) == oldDates + [today]
  {
    var b := SHash(s, book);
    var out := WriteSpec(s, d, book, words, today, clock, newPassword, freshKey, aesKey, iv);
    var day := DayFile(s, b, today);
    WriteExtendsLedgerAndDay(s, d, book, words, today, clock, newPassword, freshKey, aesKey, iv, password, k);
    WriteAppendsOneEntry(s, d, book, words, today, clock, newPassword, freshKey, aesKey, iv);
    forall q | q in d.files && q.dir == b && q != day && q.name != LEDGER_FILE
      ensures q in out.disk.files && out.disk.files[q] == d.files[q]
    {
      assert q.dir in d.dirs && q != Path(b, LEDGER_FILE);
    }
    ReadAllOn(s, d, out.disk, book, password, options, k, oldDates, today);
  }

  /** A password that does not unlock the private key stops the read before any
      entry is decrypted. */
  lemma WrongPasswordFails(s: Suite, d: Disk, book: string, password: string, options: seq<string>)
    requires var b := SHash(s, book);
      Path(b, PRIVATE_KEY_FILE) in d.files && s.importPrivate(Content(d.files[Path(b, PRIVATE_KEY_FILE)]), password).None?
    ensures ReadSpec(s, d, book, password, options) == Err(BadPassphrase)
  {
  }

  /** Only whether option `'a'` is present matters: `'F'` or any other option
      changes nothing. */
  lemma OnlyOptionAMatters(s: Suite, d: Disk, book: string, password: string,
                           options1: seq<string>, options2: seq<string>)
    requires ("a" in options1) == ("a" in options2)
    ensures ReadSpec(s, d, book, password, options1) == ReadSpec(s, d, book, password, options2)
  {
  }
}
