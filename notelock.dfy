/** The notebook storage engine: `write` appends one encrypted entry to the
    notebook's file for the day and one encrypted date to its ledger, creating
    the notebook's key files first when the notebook is new; `read` unlocks
    the private key, decrypts the ledger, selects days and assembles their
    entries. Each pipeline is a function over a `Disk` value and a method that
    runs it in place on a `FileSystem`. */
module Notelock {
  import opened Wrappers
  import opened Strings
  import opened Padding
  import opened Framing
  import opened Crypto
  import opened FileStore

  const PRIVATE_KEY_FILE: string := "private.pem"
  const PUBLIC_KEY_FILE: string := "public.der"
  const LEDGER_FILE: string := "ledger"

  /** The exceptions the two pipelines can end in. */
  datatype Error =
    | NoSuchFile(path: Path)  // IOError from open(..., 'r')
    | BadPassphrase           // RSA.importKey of private.pem refused the password
    | BadPublicKey            // RSA.importKey of public.der failed
    | BadBase64               // base64.b64decode: incorrect padding
    | DecryptFailed           // PKCS1_OAEP or AES decryption raised
    | MalformedLine           // a day-file line did not split into two fields
    | EmptyPlaintext          // unpad of an empty plaintext (IndexError)
    | NothingToPrint          // messages[-1] of an empty list (IndexError)

  /** One element of `read`'s output: `(date, None)` opens a day, `(time, msg)` is an entry. */
  datatype Item = Item(stamp: string, text: Option<string>)

  /** `open(p, 'r')` with its IOError. */
  function Open(d: Disk, p: Path): (r: Result<seq<string>, Error>)
    ensures r.Ok? <==> p in d.files
    ensures r.Ok? ==> r.value == d.files[p]
    ensures r.Err? ==> r.error == NoSuchFile(p)
  {
    Lines(d, p).ToResult(NoSuchFile(p))
  }

  /** The file of one notebook's entries for one day: `shash(bookname + date)`. */
  function DayFile(s: Suite, bookname: string, date: string): (p: Path)
    ensures p.dir == bookname
    ensures Sound(s) ==> |p.name| == 16 && p.name !in {PRIVATE_KEY_FILE, PUBLIC_KEY_FILE, LEDGER_FILE}
  {
    Path(bookname, SHash(s, bookname + date))
  }

  // ---------------------------------------------------------------- write

  /** `make_new_book`: makes the notebook's directory and stores the fresh key
      pair, the private half under the new password, the public half in the clear. */
  function MakeNewBook(s: Suite, d: Disk, bookname: string, password: string, key: RsaKey): (r: Disk)
    ensures r.dirs == d.dirs + {bookname}
    ensures r.files.Keys == d.files.Keys + {Path(bookname, PRIVATE_KEY_FILE), Path(bookname, PUBLIC_KEY_FILE)}
    ensures Content(r.files[Path(bookname, PRIVATE_KEY_FILE)]) == s.exportPrivate(key, password)
    ensures Content(r.files[Path(bookname, PUBLIC_KEY_FILE)]) == s.exportPublic(PublicPart(key))
    ensures forall q :: q in d.files && q.dir == bookname && q.name !in {PRIVATE_KEY_FILE, PUBLIC_KEY_FILE} ==> r.files[q] == d.files[q]
    ensures forall q :: q in d.files && q.dir != bookname ==> r.files[q] == d.files[q]
  {
    var made := d.(dirs := d.dirs + {bookname});
    var withPrivate := Replaced(made, Path(bookname, PRIVATE_KEY_FILE), s.exportPrivate(key, password));
    Replaced(withPrivate, Path(bookname, PUBLIC_KEY_FILE), s.exportPublic(PublicPart(key)))
  }

  /** The disk once `write` has made sure the notebook exists: unchanged when
      its directory is listed, otherwise with `make_new_book` run. */
  function Ready(s: Suite, d: Disk, bookname: string, newPassword: string, freshKey: RsaKey): (r: Disk)
    ensures r.dirs == d.dirs + {bookname}
    ensures d.files.Keys <= r.files.Keys
    ensures bookname in d.dirs ==> r == d
    ensures bookname !in d.dirs ==> Path(bookname, PRIVATE_KEY_FILE) in r.files && Path(bookname, PUBLIC_KEY_FILE) in r.files
  {
    if bookname in d.dirs then d else MakeNewBook(s, d, bookname, newPassword, freshKey)
  }

  /** `encrypted_msg`: the IV followed by the AES-CBC encryption of the padded
      plaintext, base64-encoded. */
  function Envelope(s: Suite, aesKey: string, iv: string, plaintext: string): (r: string)
    ensures Sound(s) ==> IsBase64(r)
  {
    s.b64Encode(iv + s.cbcEncrypt(aesKey, iv, Pad(plaintext)))
  }

  /** `encrypted_key`: the AES key encrypted under the public key, base64-encoded. */
  function WrappedKey(s: Suite, publicKey: RsaKey, aesKey: string): (r: string)
    ensures Sound(s) ==> IsBase64(r)
  {
    s.b64Encode(s.oaepEncrypt(publicKey, aesKey))
  }

  /** The ledger line for `today`: the date encrypted under the public key,
      base64-encoded, and a newline. */
  function LedgerLine(s: Suite, publicKey: RsaKey, today: string): (r: string)
    ensures |r| > 0 && r[|r| - 1] == NEWLINE[0]
    ensures Sound(s) ==> IsBase64(r[..|r| - 1])
  {
    s.b64Encode(s.oaepEncrypt(publicKey, today)) + NEWLINE
  }

  /** What a write leaves on disk, and whether it finished. An exception part
      way through keeps what was already written. */
  datatype WriteOutcome = WriteOutcome(disk: Disk, status: Result<(), Error>)

  /** `write(book, message, options)`. The clock (`today`, `clock`), the
      password typed for a new notebook, the generated RSA key and the random
      AES key and IV are inputs. */
  function WriteSpec(s: Suite, d: Disk, book: string, words: seq<string>,
                     today: string, clock: string, newPassword: string,
                     freshKey: RsaKey, aesKey: string, iv: string): (r: WriteOutcome)
    ensures r.disk.dirs == d.dirs + {SHash(s, book)}
    ensures r.status.Err? ==> r.disk == Ready(s, d, SHash(s, book), newPassword, freshKey)
    ensures r.status.Err? ==> r.status.error in {NoSuchFile(Path(SHash(s, book), PUBLIC_KEY_FILE)), BadPublicKey}
  {
    var bookname := SHash(s, book);
    var ready := Ready(s, d, bookname, newPassword, freshKey);
    match Open(ready, Path(bookname, PUBLIC_KEY_FILE))
    case Err(e) => WriteOutcome(ready, Err(e))
    case Ok(publicText) =>
      match s.importPublic(Content(publicText))
      case None => WriteOutcome(ready, Err(BadPublicKey))
      case Some(publicKey) =>
        var plaintext := Frame(clock, Join(" ", words));
        var line := EntryLine(WrappedKey(s, publicKey, aesKey), Envelope(s, aesKey, iv, plaintext));
        var withEntry := Appended(ready, DayFile(s, bookname, today), line);
        WriteOutcome(Appended(withEntry, Path(bookname, LEDGER_FILE), LedgerLine(s, publicKey, today)), Ok(()))
  }

  /** `write`, run on the filesystem. */
  method Write(fs: FileSystem, s: Suite, book: string, words: seq<string>,
               today: string, clock: string, newPassword: string,
               freshKey: RsaKey, aesKey: string, iv: string) returns (status: Result<(), Error>)
    modifies fs
    ensures WriteOutcome(fs.State(), status) ==
            WriteSpec(s, old(fs.State()), book, words, today, clock, newPassword, freshKey, aesKey, iv)
  {
    var bookname := SHash(s, book);
    if bookname !in fs.dirs {
      fs.MakeDir(bookname);
      fs.WriteFile(Path(bookname, PRIVATE_KEY_FILE), s.exportPrivate(freshKey, newPassword));
      fs.WriteFile(Path(bookname, PUBLIC_KEY_FILE), s.exportPublic(PublicPart(freshKey)));
    }
    var message := Join(" ", words);
    var publicText :- Open(fs.State(), Path(bookname, PUBLIC_KEY_FILE));
    var publicKey :- s.importPublic(Content(publicText)).ToResult(BadPublicKey);
    var plaintext := Frame(clock, message);
    var encryptedMsg := Envelope(s, aesKey, iv, plaintext);
    var encryptedKey := WrappedKey(s, publicKey, aesKey);
    fs.AppendLine(DayFile(s, bookname, today), EntryLine(encryptedKey, encryptedMsg));
    fs.AppendLine(Path(bookname, LEDGER_FILE), LedgerLine(s, publicKey, today));
    status := Ok(());
  }

  // ----------------------------------------------------------------- read

  /** Opens `private.pem` and imports it under the password. */
  function Unlock(s: Suite, d: Disk, bookname: string, password: string): (r: Result<RsaKey, Error>)
    ensures r.Ok? ==> Path(bookname, PRIVATE_KEY_FILE) in d.files
  {
    var pem :- Open(d, Path(bookname, PRIVATE_KEY_FILE));
    s.importPrivate(Content(pem), password).ToResult(BadPassphrase)
  }

  /** One ledger line: `line[:-1]` base64-decoded, then RSA-decrypted. */
  function LedgerDate(s: Suite, privateKey: RsaKey, line: string): (r: Result<string, Error>)
    ensures r.Err? ==> r.error in {BadBase64, DecryptFailed}
  {
    var ciphertext :- B64Decode(s, line[..SliceIndex(-1, |line|)]).ToResult(BadBase64);
    s.oaepDecrypt(privateKey, ciphertext).ToResult(DecryptFailed)
  }

  function LedgerStep(s: Suite, privateKey: RsaKey): string -> Result<seq<string>, Error>
  {
    line => match LedgerDate(s, privateKey, line)
            case Ok(date) => Ok([date])
            case Err(e) => Err(e)
  }

  /** The dates of a ledger's lines in file order, repeats kept; the first bad line fails it. */
  function DecodeLedger(s: Suite, privateKey: RsaKey, lines: seq<string>): Result<seq<string>, Error>
  {
    Collect(LedgerStep(s, privateKey), lines)
  }

  /** The ledger file's dates. */
  function LedgerDates(s: Suite, d: Disk, bookname: string, privateKey: RsaKey): Result<seq<string>, Error>
  {
    var lines :- Open(d, Path(bookname, LEDGER_FILE));
    DecodeLedger(s, privateKey, lines)
  }

  /** `dates[-1:]` unless option `'a'` was given: the last date alone (none
      for an empty ledger), or every date. */
  function Select(dates: seq<string>, options: seq<string>): (r: seq<string>)
    ensures "a" in options ==> r == dates
    ensures "a" !in options ==> |r| == (if dates == [] then 0 else 1)
    ensures |r| <= |dates| && r == dates[|dates| - |r|..]
  {
    if "a" !in options then dates[SliceIndex(-1, |dates|)..] else dates
  }

  /** One day-file line decrypted: split into wrapped key and envelope, unwrap
      the AES key, split the IV from the ciphertext, decrypt, unpad and cut the
      time off the front. */
  function DecryptEntry(s: Suite, privateKey: RsaKey, line: string): (r: Result<Item, Error>)
    ensures r.Ok? ==> r.value.text.Some? && NEWLINE[0] !in r.value.stamp
    ensures r.Err? ==> r.error in {MalformedLine, BadBase64, DecryptFailed, EmptyPlaintext}
  {
    var fields :- ParseEntryLine(line).ToResult(MalformedLine);
    var keyCiphertext :- B64Decode(s, fields.0).ToResult(BadBase64);
    var aesKey :- s.oaepDecrypt(privateKey, keyCiphertext).ToResult(DecryptFailed);
    var enc :- B64Decode(s, fields.1).ToResult(BadBase64);
    var cut := SliceIndex(BLOCK_SIZE, |enc|);
    var padded :- s.cbcDecrypt(aesKey, enc[..cut], enc[cut..]).ToResult(DecryptFailed);
    if padded == [] then Err(EmptyPlaintext)
    else
      var (time, msg) := Unframe(Unpad(padded));
      Ok(Item(time, Some(msg)))
  }

  function EntryStep(s: Suite, privateKey: RsaKey): string -> Result<seq<Item>, Error>
  {
    line => match DecryptEntry(s, privateKey, line)
            case Ok(item) => Ok([item])
            case Err(e) => Err(e)
  }

  /** The entries of a day file in file order; the first bad line fails it. */
  function DecodeDay(s: Suite, privateKey: RsaKey, lines: seq<string>): Result<seq<Item>, Error>
  {
    Collect(EntryStep(s, privateKey), lines)
  }

  /** One selected date's part of the output: its header, then its entries. */
  function DayBlock(s: Suite, d: Disk, bookname: string, privateKey: RsaKey, date: string): Result<seq<Item>, Error>
  {
    var lines :- Open(d, DayFile(s, bookname, date));
    var entries :- DecodeDay(s, privateKey, lines);
    Ok([Item(date, None)] + entries)
  }

  function DayStep(s: Suite, d: Disk, bookname: string, privateKey: RsaKey): string -> Result<seq<Item>, Error>
  {
    date => DayBlock(s, d, bookname, privateKey, date)
  }

  /** The blocks of the selected dates, in the order selected. */
  function Assemble(s: Suite, d: Disk, bookname: string, privateKey: RsaKey, dates: seq<string>): Result<seq<Item>, Error>
  {
    Collect(DayStep(s, d, bookname, privateKey), dates)
  }

  /** `read(book, options)` up to the list `messages`. */
  function ReadSpec(s: Suite, d: Disk, book: string, password: string, options: seq<string>): (r: Result<seq<Item>, Error>)
    ensures Unlock(s, d, SHash(s, book), password).Err? ==> r == Err(Unlock(s, d, SHash(s, book), password).error)
    ensures r.Ok? ==> Path(SHash(s, book), LEDGER_FILE) in d.files
  {
    var bookname := SHash(s, book);
    var privateKey :- Unlock(s, d, bookname, password);
    var dates :- LedgerDates(s, d, bookname, privateKey);
    Assemble(s, d, bookname, privateKey, Select(dates, options))
  }

  /** `print messages[-1]`: what `read` shows is only the last element. */
  function Printed(messages: seq<Item>): (r: Result<Item, Error>)
    ensures r.Ok? <==> messages != []
    ensures r.Ok? ==> r.value == messages[|messages| - 1]
  {
    if messages == [] then Err(NothingToPrint) else Ok(messages[|messages| - 1])
  }

  /** The ledger loop of `read`: decodes each line in turn and appends its date. */
  method ReadLedger(s: Suite, privateKey: RsaKey, ledger: seq<string>) returns (r: Result<seq<string>, Error>)
    ensures r == DecodeLedger(s, privateKey, ledger)
  {
    var dates: seq<string> := [];
    var i := 0;
    while i < |ledger|
      invariant i <= |ledger|
      invariant DecodeLedger(s, privateKey, ledger[..i]) == Ok(dates)
    {
      CollectSnoc(LedgerStep(s, privateKey), ledger[..i], ledger[i]);
      assert ledger[..i + 1] == ledger[..i] + [ledger[i]];
      var date := LedgerDate(s, privateKey, ledger[i]);
      if date.Err? {
        CollectErrSticks(LedgerStep(s, privateKey), ledger[..i + 1], ledger[i + 1..]);
        assert ledger[..i + 1] + ledger[i + 1..] == ledger;
        return Err(date.error);
      }
      dates := dates + [date.value];
      i := i + 1;
    }
    assert ledger[..i] == ledger;
    r := Ok(dates);
  }

  /** The inner loop of `read`: appends each decrypted entry of a day file to `messages`. */
  method AppendEntries(s: Suite, privateKey: RsaKey, lines: seq<string>, messages: seq<Item>)
    returns (r: Result<seq<Item>, Error>)
    ensures r == match DecodeDay(s, privateKey, lines)
                 case Ok(entries) => Ok(messages + entries)
                 case Err(e) => Err(e)
  {
    var out := messages;
    for j := 0 to |lines|
      invariant DecodeDay(s, privateKey, lines[..j]).Ok?
      invariant out == messages + DecodeDay(s, privateKey, lines[..j]).value
    {
      ghost var done := DecodeDay(s, privateKey, lines[..j]).value;
      var entry := DecryptEntry(s, privateKey, lines[j]);
      assert EntryStep(s, privateKey)(lines[j]) == if entry.Ok? then Ok([entry.value]) else Err(entry.error);
      CollectPrefixStep(EntryStep(s, privateKey), lines, j);
      if entry.Err? {
        return Err(entry.error);
      }
      assert messages + (done + [entry.value]) == out + [entry.value];
      out := out + [entry.value];
    }
    assert lines[..|lines|] == lines;
    r := Ok(out);
  }

  /** One pass of the outer loop of `read`: opens the date's file, appends the
      `(date, None)` header, then the entries. */
  method AppendDay(s: Suite, d: Disk, bookname: string, privateKey: RsaKey, date: string, messages: seq<Item>)
    returns (r: Result<seq<Item>, Error>)
    ensures r == match DayBlock(s, d, bookname, privateKey, date)
                 case Ok(block) => Ok(messages + block)
                 case Err(e) => Err(e)
  {
    var lines :- Open(d, DayFile(s, bookname, date));
    var out := messages + [Item(date, None)];
    r := AppendEntries(s, privateKey, lines, out);
    if r.Ok? {
      assert r.value == messages + ([Item(date, None)] + DecodeDay(s, privateKey, lines).value);
    }
  }

  /** The outer loop of `read`: pops the selected dates from the front and
      appends each one's block to `messages`. */
  method AssembleDays(s: Suite, d: Disk, bookname: string, privateKey: RsaKey, selected: seq<string>)
    returns (messages: Result<seq<Item>, Error>)
    ensures messages == Assemble(s, d, bookname, privateKey, selected)
  {
    var dates := selected;
    var out: seq<Item> := [];
    while dates != []
      invariant |dates| <= |selected| && dates == selected[|selected| - |dates|..]
      invariant Assemble(s, d, bookname, privateKey, selected[..|selected| - |dates|]) == Ok(out)
    {
      ghost var k := |selected| - |dates|;
      var date := dates[0];
      dates := dates[1..];
      assert date == selected[k] && selected[..|selected| - |dates|] == selected[..k + 1];
      assert DayStep(s, d, bookname, privateKey)(date) == DayBlock(s, d, bookname, privateKey, date);
      CollectPrefixStep(DayStep(s, d, bookname, privateKey), selected, k);
      var appended := AppendDay(s, d, bookname, privateKey, date, out);
      if appended.Err? {
        return Err(appended.error);
      }
      out := appended.value;
    }
    assert selected[..|selected|] == selected;
    messages := Ok(out);
  }

  /** `read`, run on the filesystem. */
  method Read(fs: FileSystem, s: Suite, book: string, password: string, options: seq<string>)
    returns (messages: Result<seq<Item>, Error>)
    ensures messages == ReadSpec(s, fs.State(), book, password, options)
  {
    var d := fs.State();
    var bookname := SHash(s, book);
    var privateKey :- Unlock(s, d, bookname, password);
    var ledger :- Open(d, Path(bookname, LEDGER_FILE));
    var dates :- ReadLedger(s, privateKey, ledger);
    if "a" !in options {
      dates := dates[SliceIndex(-1, |dates|)..];
    }
    messages := AssembleDays(s, d, bookname, privateKey, dates);
  }
}
