/** What a `write` does to the disk: one line more in the day file and one in
    the ledger, nothing rewritten, key files made first for a new notebook, and
    the ledger's line count kept equal to the number of entry lines. */
module WriteProperties {
  import opened Wrappers
  import opened Crypto
  import opened FileStore
  import opened Notelock

  /** The lines of `p`, none when it is missing. */
  function LinesOf(d: Disk, p: Path): seq<string>
  {
    if p in d.files then d.files[p] else []
  }

  /** Every file lies in a directory that exists. */
  ghost predicate WellFormed(d: Disk)
  {
    forall p :: p in d.files ==> p.dir in d.dirs
  }

  /** One line of a text file as `for line in f` yields it: it ends in the
      newline and holds no other. */
  predicate IsLine(l: string)
  {
    |l| > 0 && l[|l| - 1] == '\n' && '\n' !in l[..|l| - 1]
  }

  /** Every element of a ledger or a day file is one line, so the file's
      elements are what iterating over the file yields. Key files are read
      whole and are not split. */
  ghost predicate LinesSplit(d: Disk)
  {
    forall p, i :: p in d.files && p.name !in {PRIVATE_KEY_FILE, PUBLIC_KEY_FILE} && 0 <= i < |d.files[p]| ==>
      IsLine(d.files[p][i])
  }

  /** The password unlocks the notebook's private key `k`, and its public key
      file holds the public half of `k`. */
  ghost predicate Unlocks(s: Suite, d: Disk, bookname: string, password: string, k: RsaKey)
  {
    && Unlock(s, d, bookname, password) == Ok(k)
    && k.IsPrivate()
    && Path(bookname, PUBLIC_KEY_FILE) in d.files
    && s.importPublic(Content(d.files[Path(bookname, PUBLIC_KEY_FILE)])) == Some(PublicPart(k))
  }

  /** The day files of a notebook: every file in its directory but the keys and the ledger. */
  ghost function DayFiles(d: Disk, bookname: string): set<Path>
  {
    set p | p in d.files && p.dir == bookname && p.name !in {PRIVATE_KEY_FILE, PUBLIC_KEY_FILE, LEDGER_FILE}
  }

  /** The number of entry lines across a notebook's day files. */
  ghost function EntryCount(d: Disk, bookname: string): nat
  {
    SumLines(d.files, DayFiles(d, bookname))
  }

  /** The number of ledger lines of a notebook. */
  function LedgerCount(d: Disk, bookname: string): nat
  {
    |LinesOf(d, Path(bookname, LEDGER_FILE))|
  }

  /** Every notebook's ledger has one line per entry line in its day files. */
  ghost predicate Balanced(d: Disk)
  {
    forall b :: LedgerCount(d, b) == EntryCount(d, b)
  }

  lemma EmptyDiskBalanced()
    ensures Balanced(Disk({}, map[]))
  {
    var d := Disk({}, map[]);
    forall b ensures LedgerCount(d, b) == EntryCount(d, b) {
      assert DayFiles(d, b) == {};
    }
  }

  /** Rewriting a key file changes neither count of any notebook. */
  lemma CountsAfterKeyFile(d: Disk, p: Path, content: string)
    requires p.name in {PRIVATE_KEY_FILE, PUBLIC_KEY_FILE}
    ensures var e := Replaced(d, p, content);
      forall b :: LedgerCount(e, b) == LedgerCount(d, b) && EntryCount(e, b) == EntryCount(d, b)
  {
    var e := Replaced(d, p, content);
    forall b ensures LedgerCount(e, b) == LedgerCount(d, b) && EntryCount(e, b) == EntryCount(d, b) {
      assert DayFiles(e, b) == DayFiles(d, b);
      SumLinesFrame(d.files, e.files, DayFiles(d, b));
    }
  }

  /** Appending a line to a day file adds one entry line to its notebook only. */
  lemma CountsAfterDayAppend(d: Disk, p: Path, line: string)
    requires p.name !in {PRIVATE_KEY_FILE, PUBLIC_KEY_FILE, LEDGER_FILE}
    ensures var e := Appended(d, p, line);
      && (forall b :: LedgerCount(e, b) == LedgerCount(d, b))
      && EntryCount(e, p.dir) == EntryCount(d, p.dir) + 1
      && (forall b :: b != p.dir ==> EntryCount(e, b) == EntryCount(d, b))
  {
    var e := Appended(d, p, line);
    var ps := DayFiles(d, p.dir) - {p};
    assert DayFiles(e, p.dir) == ps + {p};
    SumLinesAppend(d, p, line, ps);
    if p in d.files {
      SumLinesRemove(d.files, DayFiles(d, p.dir), p);
    } else {
      assert ps == DayFiles(d, p.dir);
    }
    forall b | b != p.dir ensures EntryCount(e, b) == EntryCount(d, b) {
      assert DayFiles(e, b) == DayFiles(d, b);
      SumLinesFrame(d.files, e.files, DayFiles(d, b));
    }
  }

  /** Appending a line to a ledger adds one ledger line to its notebook only. */
  lemma CountsAfterLedgerAppend(d: Disk, bookname: string, line: string)
    ensures var e := Appended(d, Path(bookname, LEDGER_FILE), line);
      && LedgerCount(e, bookname) == LedgerCount(d, bookname) + 1
      && (forall b :: b != bookname ==> LedgerCount(e, b) == LedgerCount(d, b))
      && (forall b :: EntryCount(e, b) == EntryCount(d, b))
  {
    var e := Appended(d, Path(bookname, LEDGER_FILE), line);
    forall b ensures EntryCount(e, b) == EntryCount(d, b) {
      assert DayFiles(e, b) == DayFiles(d, b);
      SumLinesFrame(d.files, e.files, DayFiles(d, b));
    }
  }

  /** Making a new notebook changes neither count of any notebook. */
  lemma CountsAfterMakeNewBook(s: Suite, d: Disk, bookname: string, password: string, key: RsaKey)
    ensures var e := MakeNewBook(s, d, bookname, password, key);
      forall b :: LedgerCount(e, b) == LedgerCount(d, b) && EntryCount(e, b) == EntryCount(d, b)
  {
    var made := d.(dirs := d.dirs + {bookname});
    var withPrivate := Replaced(made, Path(bookname, PRIVATE_KEY_FILE), s.exportPrivate(key, password));
    CountsAfterKeyFile(made, Path(bookname, PRIVATE_KEY_FILE), s.exportPrivate(key, password));
    CountsAfterKeyFile(withPrivate, Path(bookname, PUBLIC_KEY_FILE), s.exportPublic(PublicPart(key)));
    forall b ensures EntryCount(made, b) == EntryCount(d, b) {
      assert DayFiles(made, b) == DayFiles(d, b);
    }
  }

  /** Getting a notebook ready changes no file but its key files. */
  lemma ReadyKeepsOthers(s: Suite, d: Disk, bookname: string, password: string, key: RsaKey, p: Path)
    requires p.name !in {PRIVATE_KEY_FILE, PUBLIC_KEY_FILE}
    ensures LinesOf(Ready(s, d, bookname, password, key), p) == LinesOf(d, p)
  {
  }

  /** Two appends to distinct files: each gains its line, nothing else changes. */
  lemma TwoAppends(r: Disk, day: Path, ledger: Path, line: string, ledgerLine: string)
    requires day != ledger
    ensures var out := Appended(Appended(r, day, line), ledger, ledgerLine);
      && out.dirs == r.dirs
      && out.files.Keys == r.files.Keys + {day, ledger}
      && LinesOf(out, day) == LinesOf(r, day) + [line]
      && LinesOf(out, ledger) == LinesOf(r, ledger) + [ledgerLine]
      && (forall q :: q in r.files && q != day && q != ledger ==> out.files[q] == r.files[q])
  {
  }

  /** What a write leaves: the disk made ready when it stops early, and when it
      finishes that disk with the entry line appended to the day file and the
      ledger line to the ledger, both made with the public key read back. */
  lemma WriteSpecShape(s: Suite, d: Disk, book: string, words: seq<string>,
                       today: string, clock: string, newPassword: string,
                       freshKey: RsaKey, aesKey: string, iv: string) returns (publicKey: RsaKey)
    ensures var out := WriteSpec(s, d, book, words, today, clock, newPassword, freshKey, aesKey, iv);
      var b := SHash(s, book);
      var ready := Ready(s, d, b, newPassword, freshKey);
      var line := Framing.EntryLine(WrappedKey(s, publicKey, aesKey), Envelope(s, aesKey, iv, Framing.Frame(clock, Strings.Join(" ", words))));
      && (out.status.Ok? <==>
            Path(b, PUBLIC_KEY_FILE) in ready.files && s.importPublic(Content(ready.files[Path(b, PUBLIC_KEY_FILE)])).Some?)
      && (out.status.Err? ==> out.disk == ready)
      && (out.status.Ok? ==>
            && s.importPublic(Content(ready.files[Path(b, PUBLIC_KEY_FILE)])) == Some(publicKey)
            && out.disk == Appended(Appended(ready, DayFile(s, b, today), line), Path(b, LEDGER_FILE), LedgerLine(s, publicKey, today)))
  {
    var b := SHash(s, book);
    var ready := Ready(s, d, b, newPassword, freshKey);
    publicKey := freshKey;
    if Path(b, PUBLIC_KEY_FILE) in ready.files {
      var imported := s.importPublic(Content(ready.files[Path(b, PUBLIC_KEY_FILE)]));
      if imported.Some? {
        publicKey := imported.value;
      }
    }
  }

  /** Every write, finished or not, keeps each ledger as long as its notebook's
      day files are in lines. */
  lemma WriteKeepsBalanced(s: Suite, d: Disk, book: string, words: seq<string>,
                           today: string, clock: string, newPassword: string,
                           freshKey: RsaKey, aesKey: string, iv: string)
    requires Sound(s) && Balanced(d)
    ensures Balanced(WriteSpec(s, d, book, words, today, clock, newPassword, freshKey, aesKey, iv).disk)
  {
    var bookname := SHash(s, book);
    var ready := Ready(s, d, bookname, newPassword, freshKey);
    if bookname !in d.dirs {
      CountsAfterMakeNewBook(s, d, bookname, newPassword, freshKey);
    }
    assert Balanced(ready);
    var out := WriteSpec(s, d, book, words, today, clock, newPassword, freshKey, aesKey, iv);
    var publicKey := WriteSpecShape(s, d, book, words, today, clock, newPassword, freshKey, aesKey, iv);
    if out.status.Ok? {
      var plaintext := Framing.Frame(clock, Strings.Join(" ", words));
      var line := Framing.EntryLine(WrappedKey(s, publicKey, aesKey), Envelope(s, aesKey, iv, plaintext));
      var day := DayFile(s, bookname, today);
      var withEntry := Appended(ready, day, line);
      CountsAfterDayAppend(ready, day, line);
      CountsAfterLedgerAppend(withEntry, bookname, LedgerLine(s, publicKey, today));
    }
  }

  /** A finished write appends exactly one line to the day file and one to the
      ledger and leaves every other file as it was; an unfinished one has at
      most written the key files of a new notebook and changes no file that
      was already there. */
  lemma WriteAppendsOneEntry(s: Suite, d: Disk, book: string, words: seq<string>,
                             today: string, clock: string, newPassword: string,
                             freshKey: RsaKey, aesKey: string, iv: string)
    requires Sound(s)
    ensures var out := WriteSpec(s, d, book, words, today, clock, newPassword, freshKey, aesKey, iv);
      var b := SHash(s, book);
      var day := DayFile(s, b, today);
      var ledger := Path(b, LEDGER_FILE);
      var keys := if b in d.dirs then {} else {Path(b, PRIVATE_KEY_FILE), Path(b, PUBLIC_KEY_FILE)};
      && out.disk.dirs == d.dirs + {b}
      && (out.status.Ok? ==>
            && out.disk.files.Keys == d.files.Keys + keys + {day, ledger}
            && |LinesOf(out.disk, day)| == |LinesOf(d, day)| + 1
            && LinesOf(out.disk, day)[..|LinesOf(d, day)|] == LinesOf(d, day)
            && |LinesOf(out.disk, ledger)| == |LinesOf(d, ledger)| + 1
            && LinesOf(out.disk, ledger)[..|LinesOf(d, ledger)|] == LinesOf(d, ledger))
      && (out.status.Err? ==> out.disk.files.Keys == d.files.Keys + keys)
      && (forall q :: q in d.files && q !in keys && (out.status.Ok? ==> q != day && q != ledger) ==>
            out.disk.files[q] == d.files[q])
  {
    var b := SHash(s, book);
    var day := DayFile(s, b, today);
    var ready := Ready(s, d, b, newPassword, freshKey);
    var publicKey := WriteSpecShape(s, d, book, words, today, clock, newPassword, freshKey, aesKey, iv);
    var line := Framing.EntryLine(WrappedKey(s, publicKey, aesKey), Envelope(s, aesKey, iv, Framing.Frame(clock, Strings.Join(" ", words))));
    TwoAppends(ready, day, Path(b, LEDGER_FILE), line, LedgerLine(s, publicKey, today));
    ReadyKeepsOthers(s, d, b, newPassword, freshKey, day);
    ReadyKeepsOthers(s, d, b, newPassword, freshKey, Path(b, LEDGER_FILE));
  }

  /** A write to a notebook whose directory is missing creates its key files
      before anything else, finishes, and leaves the new password unlocking the
      generated key. */
  lemma NewBookIsUnlocked(s: Suite, d: Disk, book: string, words: seq<string>,
                          today: string, clock: string, newPassword: string,
                          freshKey: RsaKey, aesKey: string, iv: string)
    requires Sound(s) && freshKey.IsPrivate() && SHash(s, book) !in d.dirs
    ensures var b := SHash(s, book);
      var out := WriteSpec(s, d, book, words, today, clock, newPassword, freshKey, aesKey, iv);
      && Unlocks(s, Ready(s, d, b, newPassword, freshKey), b, newPassword, freshKey)
      && out.status.Ok?
      && Unlocks(s, out.disk, b, newPassword, freshKey)
  {
    var b := SHash(s, book);
    var ready := Ready(s, d, b, newPassword, freshKey);
    assert Unlocks(s, ready, b, newPassword, freshKey);
    WriteKeepsKeyFiles(s, d, book, words, today, clock, newPassword, freshKey, aesKey, iv, b);
  }

  /** Key files already present are never touched by a write. */
  lemma WriteKeepsKeyFiles(s: Suite, d: Disk, book: string, words: seq<string>,
                           today: string, clock: string, newPassword: string,
                           freshKey: RsaKey, aesKey: string, iv: string, bookname: string)
    requires Sound(s)
    ensures var ready := Ready(s, d, SHash(s, book), newPassword, freshKey);
      var out := WriteSpec(s, d, book, words, today, clock, newPassword, freshKey, aesKey, iv);
      forall name :: name in {PRIVATE_KEY_FILE, PUBLIC_KEY_FILE} && Path(bookname, name) in ready.files ==>
        Path(bookname, name) in out.disk.files && out.disk.files[Path(bookname, name)] == ready.files[Path(bookname, name)]
  {
    var b := SHash(s, book);
    var ready := Ready(s, d, b, newPassword, freshKey);
    var publicKey := WriteSpecShape(s, d, book, words, today, clock, newPassword, freshKey, aesKey, iv);
    var line := Framing.EntryLine(WrappedKey(s, publicKey, aesKey), Envelope(s, aesKey, iv, Framing.Frame(clock, Strings.Join(" ", words))));
    TwoAppends(ready, DayFile(s, b, today), Path(b, LEDGER_FILE), line, LedgerLine(s, publicKey, today));
  }

  /** A write keeps every directory and so every file's directory. */
  lemma WriteKeepsWellFormed(s: Suite, d: Disk, book: string, words: seq<string>,
                             today: string, clock: string, newPassword: string,
                             freshKey: RsaKey, aesKey: string, iv: string)
    requires WellFormed(d)
    ensures WellFormed(WriteSpec(s, d, book, words, today, clock, newPassword, freshKey, aesKey, iv).disk)
  {
    var b := SHash(s, book);
    var ready := Ready(s, d, b, newPassword, freshKey);
    var publicKey := WriteSpecShape(s, d, book, words, today, clock, newPassword, freshKey, aesKey, iv);
    assert WellFormed(ready);
  }

  /** A day-file line made of base64 fields is one line. */
  lemma EntryLineIsLine(wrappedKey: string, envelope: string)
    requires IsBase64(wrappedKey) && IsBase64(envelope)
    ensures IsLine(Framing.EntryLine(wrappedKey, envelope))
  {
    var r := Framing.EntryLine(wrappedKey, envelope);
    var body := wrappedKey + Framing.FIELD_SEP + envelope;
    assert r == body + "\n";
    assert r[..|r| - 1] == body;
    forall i | 0 <= i < |body| ensures body[i] != '\n' {
      if i < |wrappedKey| {
        assert IsBase64Char(wrappedKey[i]);
      } else if i >= |wrappedKey| + 3 {
        assert body[i] == envelope[i - |wrappedKey| - 3];
        assert IsBase64Char(envelope[i - |wrappedKey| - 3]);
      }
    }
  }

  /** A ledger line is one line. */
  lemma LedgerLineIsLine(s: Suite, publicKey: RsaKey, today: string)
    requires Sound(s)
    ensures IsLine(LedgerLine(s, publicKey, today))
  {
    var r := LedgerLine(s, publicKey, today);
    var body := r[..|r| - 1];
    forall i | 0 <= i < |body| ensures body[i] != '\n' {
      assert IsBase64Char(body[i]);
    }
  }

  /** Getting a notebook ready adds only key files, so it keeps every element one line. */
  lemma ReadyKeepsLines(s: Suite, d: Disk, bookname: string, password: string, key: RsaKey)
    requires LinesSplit(d)
    ensures LinesSplit(Ready(s, d, bookname, password, key))
  {
    var ready := Ready(s, d, bookname, password, key);
    forall p | p in ready.files && p.name !in {PRIVATE_KEY_FILE, PUBLIC_KEY_FILE}
      ensures ready.files[p] == LinesOf(d, p)
    {
      ReadyKeepsOthers(s, d, bookname, password, key, p);
    }
  }

  /** Appending one line keeps every element one line. */
  lemma AppendKeepsLines(d: Disk, p: Path, line: string)
    requires LinesSplit(d) && IsLine(line)
    ensures LinesSplit(Appended(d, p, line))
  {
    var e := Appended(d, p, line);
    forall q, i | q in e.files && q.name !in {PRIVATE_KEY_FILE, PUBLIC_KEY_FILE} && 0 <= i < |e.files[q]|
      ensures IsLine(e.files[q][i])
    {
      if q == p && i < |LinesOf(d, p)| {
        assert e.files[q][i] == d.files[p][i];
      }
    }
  }

  /** Every write keeps each element of a ledger or day file one line: the two
      lines it appends each end in their newline and hold no other. */
  lemma WriteKeepsLines(s: Suite, d: Disk, book: string, words: seq<string>,
                        today: string, clock: string, newPassword: string,
                        freshKey: RsaKey, aesKey: string, iv: string)
    requires Sound(s) && LinesSplit(d)
    ensures LinesSplit(WriteSpec(s, d, book, words, today, clock, newPassword, freshKey, aesKey, iv).disk)
  {
    var b := SHash(s, book);
    var ready := Ready(s, d, b, newPassword, freshKey);
    ReadyKeepsLines(s, d, b, newPassword, freshKey);
    var publicKey := WriteSpecShape(s, d, book, words, today, clock, newPassword, freshKey, aesKey, iv);
    var out := WriteSpec(s, d, book, words, today, clock, newPassword, freshKey, aesKey, iv);
    if out.status.Ok? {
      var wrapped := WrappedKey(s, publicKey, aesKey);
      var envelope := Envelope(s, aesKey, iv, Framing.Frame(clock, Strings.Join(" ", words)));
      var line := Framing.EntryLine(wrapped, envelope);
      var day := DayFile(s, b, today);
      EntryLineIsLine(wrapped, envelope);
      LedgerLineIsLine(s, publicKey, today);
      AppendKeepsLines(ready, day, line);
      AppendKeepsLines(Appended(ready, day, line), Path(b, LEDGER_FILE), LedgerLine(s, publicKey, today));
    }
  }

  /** A write keeps every notebook that was unlocked by a password unlocked by it. */
  lemma WriteKeepsUnlocks(s: Suite, d: Disk, book: string, words: seq<string>,
                          today: string, clock: string, newPassword: string,
                          freshKey: RsaKey, aesKey: string, iv: string,
                          bookname: string, password: string, k: RsaKey)
    requires Sound(s) && WellFormed(d) && Unlocks(s, d, bookname, password, k)
    ensures Unlocks(s, WriteSpec(s, d, book, words, today, clock, newPassword, freshKey, aesKey, iv).disk, bookname, password, k)
  {
    var ready := Ready(s, d, SHash(s, book), newPassword, freshKey);
    assert bookname in d.dirs;
    assert ready.files[Path(bookname, PRIVATE_KEY_FILE)] == d.files[Path(bookname, PRIVATE_KEY_FILE)];
    assert ready.files[Path(bookname, PUBLIC_KEY_FILE)] == d.files[Path(bookname, PUBLIC_KEY_FILE)];
    WriteKeepsKeyFiles(s, d, book, words, today, clock, newPassword, freshKey, aesKey, iv, bookname);
  }
}
