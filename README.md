# Notelock storage engine in Dafny

Notelock keeps password-protected notebooks of dated text entries. Each
notebook lives in a directory named by a 16-character SHA-256 prefix of the
notebook's name, and holds these files:

- `private.pem`: the RSA private key, exported under the notebook's password.
- `public.der`: the RSA public key, in the clear.
- `ledger`: one RSA-OAEP-encrypted, base64-encoded date for every entry ever written.
- One day file per date, named by the hash of the directory name and the date. Each entry is one
  line `wrappedKey - envelope`:
  - `wrappedKey` is a fresh AES-128 key, encrypted under the public key.
  - `envelope` is the IV followed by the AES-CBC encryption of the padded plaintext `HH:MM\nmessage`.

`write` creates the notebook when its directory is missing, then appends one
line to the day file and one to the ledger. `read` does the following:

1. Unlocks the private key with the password.
2. Decrypts every ledger line.
3. Keeps only the last date, unless option `a` is given.
4. Decrypts the entries of each selected day.
5. Builds the list `(date, None), (time, message), …`, whose last element is printed.

The model has these parts:

- `Padding`: block padding and unpadding.
- `Strings`: Python's `split`/`join` and slice-index normalisation.
- `Framing`: the plaintext framing and the day-file line format.
- `Crypto`: the library calls, as total functions in a `Suite`. The inverse laws
  of these calls are a predicate, `Sound`, which the end-to-end lemmas require.
- `FileStore`: the filesystem, both as a `Disk` value and as a `FileSystem` class that the
  pipelines change in place.
- `Notelock`: both pipelines. Each one is a specification function on `Disk`
  (`WriteSpec`, `ReadSpec`) and a method whose postcondition equates its effect with that
  function.
- `WriteProperties` and `ReadProperties`: what a write preserves, and what a read
  returns after a write.

## Model

| member | source | states |
|---|---|---|
| Strings.Split | notelock.py:168 | a split always yields at least one piece, so taking piece 0 never fails |
| Strings.SplitPiecesFree | notelock.py:168 | no piece of a split holds the separator |
| Strings.SplitOnePiece | notelock.py:168 | a text splits into one piece exactly when it holds no separator |
| Strings.JoinSplit | notelock.py:180-181 | joining the pieces of `split(sep)` with `sep` gives the string back |
| Strings.SplitAfterHead | notelock.py:168 | splitting `t + sep + rest`, where `t` holds no separator start, cuts right after `t` |
| Padding.Pad | notelock.py:61-62 | the result is a whole number of 16-byte blocks, 1 to 16 bytes longer, starts with the input, and every added byte's value is the number of bytes added |
| Padding.Unpad | notelock.py:63 | the result is a prefix of the input, shorter by the last byte's value, or empty when that value is 0 or not less than the length |
| Padding.UnpadPad | notelock.py:61-63 | unpad undoes pad for every plaintext |
| Framing.Frame | notelock.py:108 | when the timestamp holds no newline, splitting the framed text on newlines gives the timestamp, then the pieces of the message |
| Framing.Unframe | notelock.py:180-181 | the time holds no newline; framing time and message again gives the plaintext back when it held a newline, else the whole plaintext is the time and the message is empty |
| Framing.UnframeFrame | notelock.py:108 | a timestamp without a newline and any message come back unchanged from the framing read undoes |
| Framing.UnframeCutsTimestamp | notelock.py:108 | a timestamp holding a newline is cut at it |
| Framing.EntryLine | notelock.py:123-127 | when neither field holds a space, the line splits on `' - '` into exactly the wrapped key and the envelope with its newline |
| Framing.ParseEntryLine | notelock.py:168 | unpacking succeeds exactly when the line holds a `' - '` and the text after the first one holds no other; the fields are the text before and after that first `' - '`, neither holds the separator, and joined by it they give the line back |
| Framing.ParseEntryLineOneSep | notelock.py:168 | a line with exactly one `' - '` unpacks into the text before it and the text after it |
| Framing.ParseEntryLineRoundTrip | notelock.py:123-127 | a line written as key, `' - '`, envelope, newline parses back to the key and the envelope with its newline, when neither field holds a space |
| Crypto.SHash | notelock.py:67-70 | under sound hashing the name is 16 characters |
| Crypto.Base64Filter | notelock.py:172 | what Python 2's b64decode decodes: only alphabet characters are kept, and text already in the alphabet is unchanged |
| Crypto.B64Decode | notelock.py:170-172 | on text already in the base64 alphabet, the decode is the library's own decode of that text |
| Crypto.B64DecodeIgnoresTrailer | notelock.py:127 | encoded text followed by the newline of its line still decodes to what was encoded |
| FileStore.Appended | notelock.py:123-127 | append mode creates the file if absent, adds one line at its end and leaves every other file unchanged |
| FileStore.Replaced | notelock.py:81-86 | write mode leaves the file holding exactly the content written, every other file unchanged |
| FileStore.FileSystem.MakeDir | notelock.py:74 | the directory is added and no file changes |
| FileStore.FileSystem.WriteFile | notelock.py:81-83 | the new state is the old one with the file replaced |
| FileStore.FileSystem.AppendLine | notelock.py:131-132 | the new state is the old one with the line appended |
| Notelock.DayFile | notelock.py:122-123 | the day file lies in the notebook's directory and, under sound hashing, is a 16-character name distinct from the key and ledger files |
| Notelock.Ready | notelock.py:95-97 | the notebook's directory is added, no file is lost, an existing notebook leaves the disk as it was, and a new one gains both key files |
| Notelock.MakeNewBook | notelock.py:72-86 | adds the notebook directory and exactly the two key files, the private key exported under the password and the public key in the clear, leaving all other files unchanged |
| Notelock.Envelope | notelock.py:112-115 | under a sound library the envelope is base64 text |
| Notelock.WrappedKey | notelock.py:118-119 | under a sound library the wrapped key is base64 text |
| Notelock.LedgerLine | notelock.py:130-132 | the ledger line ends with a newline, and under a sound library the text before it is base64 |
| Notelock.WriteSpec | notelock.py:88-132 | after any write the directories are the old ones plus the notebook's; a write that stops early leaves only the notebook made ready, and fails only for a missing public key file or a public key that does not import |
| Notelock.Write | notelock.py:88-132 | the state and status after the method are those `WriteSpec` gives for the old state |
| Notelock.Unlock | notelock.py:141-143 | a key is obtained only when `private.pem` exists |
| Notelock.Select | notelock.py:153-156 | with `a` every date, else the last date alone (none for an empty ledger); always a suffix of the dates |
| Notelock.LedgerDate | notelock.py:150-151 | a ledger line fails to decode only for bad base64 or a failed decryption |
| Notelock.DecryptEntry | notelock.py:168-182 | a decrypted entry carries a message and a time without a newline; a line fails only as malformed, as bad base64, as a failed decryption or as an empty plaintext |
| Notelock.ReadSpec | notelock.py:134-182 | when unlocking the private key fails, for a missing key file or a wrong password, that failure is the read's error; a successful read means the ledger exists |
| Notelock.ReadLedger | notelock.py:146-151 | the loop's result equals decoding the whole ledger, the first bad line's error included |
| Notelock.AppendEntries | notelock.py:166-182 | the loop appends the decoded entries of the day file in order, or stops with the first line's error |
| Notelock.AppendDay | notelock.py:160-164 | one pass of the outer loop appends the day's header and its entries, or fails |
| Notelock.AssembleDays | notelock.py:158-164 | popping dates from the front yields the concatenated day blocks in selection order |
| Notelock.Read | notelock.py:134-182 | the method's result is `ReadSpec` of the filesystem |
| WriteProperties.EmptyDiskBalanced | notelock.py:122-132 | a store with no notebooks has, for every notebook, as many ledger lines as entry lines |
| WriteProperties.CountsAfterKeyFile | notelock.py:81-86 | rewriting a key file changes neither count of any notebook |
| WriteProperties.CountsAfterDayAppend | notelock.py:123-127 | appending to a day file adds one entry line to its own notebook and nothing elsewhere |
| WriteProperties.CountsAfterLedgerAppend | notelock.py:131-132 | appending to a ledger adds one ledger line to its own notebook and nothing elsewhere |
| WriteProperties.CountsAfterMakeNewBook | notelock.py:72-86 | creating a notebook changes neither count of any notebook |
| WriteProperties.WriteKeepsBalanced | notelock.py:88-132 | every write, finished or not, keeps each notebook's ledger line count equal to its entry line count |
| WriteProperties.ReadyKeepsOthers | notelock.py:95-97 | getting a notebook ready changes no file but its two key files |
| WriteProperties.WriteKeepsLines | notelock.py:123-132 | under a sound library every write keeps each element of a ledger or day file one line, ending in its newline and holding no other, since both appended lines are base64 fields with one final newline |
| WriteProperties.WriteAppendsOneEntry | notelock.py:88-132 | a finished write adds exactly one line to the end of the day file and of the ledger and changes no other file; an unfinished one has at most created a new notebook's key files and changes no file already present |
| WriteProperties.NewBookIsUnlocked | notelock.py:96-97 | writing to a new notebook creates its keys, finishes, and the new password then unlocks the generated key |
| WriteProperties.WriteKeepsKeyFiles | notelock.py:96-97 | key files that exist when the appends start are never changed |
| WriteProperties.WriteKeepsWellFormed | notelock.py:88-132 | every file stays inside an existing directory |
| WriteProperties.WriteKeepsUnlocks | notelock.py:88-132 | a password that unlocked a notebook still unlocks it after any write |
| ReadProperties.LedgerLineRoundTrip | notelock.py:130-132 | a ledger line written for a date decodes back to that date with the private key |
| ReadProperties.DecodeDayPerLine | notelock.py:166-182 | a day file decodes exactly when every one of its lines decrypts, and then into one `(time, message)` item per line, in file order |
| ReadProperties.EntryLineRoundTrip | notelock.py:105-127 | a day-file line written for a time and message decrypts back to exactly that time and message |
| ReadProperties.WriteExtendsLedgerAndDay | notelock.py:88-151 | after a write the ledger decodes to its old dates plus today and the day file to its old entries plus the new one |
| ReadProperties.ReadLatestAfterWrite | notelock.py:153-182 | a read without `a` right after a write yields today's header, the day's earlier entries and the new entry last |
| ReadProperties.ReadPrintsWrittenEntry | notelock.py:184 | what that read prints is the entry just written |
| ReadProperties.AssembleOkEach | notelock.py:158-164 | when the selected days assemble, every one of them opens and decodes |
| ReadProperties.AssembleOkAll | notelock.py:158-164 | when every selected day opens and decodes, the days assemble |
| ReadProperties.DayBlocksSurvive | notelock.py:158-164 | days that decoded still decode on a disk that keeps every other file of the notebook, given that today's file decodes there |
| ReadProperties.ReadAllOn | notelock.py:153-164 | a read with `a` of a ledger listing the old dates then today, where the old days still decode and today's file decodes, succeeds with one header per ledger line |
| ReadProperties.OldReadAssembles | notelock.py:153-164 | when a read with `a` succeeded, every day its ledger lists opens and decodes |
| ReadProperties.ReadAllAfterWrite | notelock.py:153-164 | when every day of the old ledger decoded and today's file decoded, a read with `a` after a write succeeds with one header per ledger line, today's last, so a day written twice appears twice |
| ReadProperties.AssembleHeaders | notelock.py:158-164 | the assembled output has one `(date, None)` header per selected date, in selection order |
| ReadProperties.ReadSelectsDays | notelock.py:147-164 | a successful read's headers are exactly the selected ledger dates |
| ReadProperties.WrongPasswordFails | notelock.py:141-143 | a password the private key does not accept fails the read before any decryption |
| ReadProperties.OnlyOptionAMatters | notelock.py:153-156 | two option lists that agree on whether `a` is present give the same result; `F` and every other option change nothing |

## Left out

- Cryptography and encodings: RSA, OAEP, AES-CBC, SHA-256 and base64 are opaque
  functions. The model keeps only the laws in `Sound`.
- Randomness: OAEP randomness is folded into the opaque encryption function.
  The generated RSA key, AES key and IV are inputs of `write`. The key size
  `RSA_BITS` (2048, notelock.py:58) is therefore not modelled.
- Bytes: a Dafny `char` stands for one byte of a Python 2 `str` (the argv words
  joined at notelock.py:100, the padded plaintext, the decrypted text). Lengths,
  `chr` and `ord` at notelock.py:61-63 count such characters. Characters at or
  above 256 have no counterpart in the program.
- Files as lines: a ledger or day file is held as the list of lines that
  `for line in f` yields (notelock.py:149, 167). `WriteProperties.LinesSplit` says
  that each element is one line, and every write keeps it (`WriteKeepsLines`).
  The read lemmas are stated for any disk, so they describe the program only on
  disks where `LinesSplit` holds. Elsewhere one element may stand for several lines.
- I/O: the clock (`datetime.now`) and the password prompts (`getpass`) are inputs.
  `make_new_book` prompts once, at notelock.py:75, and `read` once, at notelock.py:139.
- Line writes: the two `write` calls that put one line into a day file are merged into one line append.
- Failures and concurrency: crashes between writes, partial lines and concurrent
  writers are not modelled.
- Directories: a file can be added without its directory existing.
  `WellFormed` states when directories are consistent, and writes preserve it.
- Other operations: `set_remote`, `login`, `create_user` (network code) and
  the command-line parsing of `__main__` are not part of this model.
- Differences from the module docstring and from what a reader might expect: the model follows the code.
  - The ledger gets one line per write and is not deduplicated (notelock.py:130-132).
    So with `a` a day with several writes appears several times.
  - The docstring describes an option `F` (notelock.py:16-18). The code has no such option.
  - `unpad` trusts the last character and does not check the padding (notelock.py:63).
  - The docstring says `-a` prints all entries (notelock.py:18). The code prints only
    `messages[-1]` (notelock.py:184), so with `a` too only the last item is shown.
  - The module docstring (notelock.py:11) says a new notebook's password is asked for twice.
    `make_new_book` asks once and does not confirm it. The only confirm-and-retry loop is in
    `create_user` (notelock.py:200-205), which is not part of this model.
- Source parse errors: `notelock.py` has a stray `)` at line 178 and an incomplete
  `if` at line 208. The model follows the evident intent at line 178.
- Crypto.SHash: does not state that the name is a hex digest, only its length.
