# ls clone: the text side, in Dafny

This project models the core of a small `ls` clone written in Rust. The core is
everything that turns numbers and strings into output text and decisions:

- **Permission translator** (`oct_to_rwx_permissions`, module `Utils`). It maps
  each octal digit character to a fixed `rwx` triplet and concatenates the
  triplets in input order. The table has seven keys and no entry for `'3'`.
  Any character the table lacks makes the lookup's `unwrap` panic.
- **Long-format row** (`LongListItem::new` and its `Display`, module
  `LongList`). The directory flag becomes `'d'` or `'-'`. The last three
  characters of the mode's octal form go to the translator. The row is
  written with a fixed separator layout.
- **Argument scan** (`Config::new`, module `Command`). It is a left-to-right,
  last-write-wins pass. A token with a hyphen anywhere becomes the flag. The
  token `ls` sets the tool. Anything else becomes the path.
- **Dispatch** (`run` and the `ls` guard of `main`, module `Command`). The
  flag `-h` selects help, `-l` a long listing and anything else a short
  listing. Nothing happens unless some token is `ls`.

Module `Numerals` holds the number formatting the row needs: Rust's `{:o}`
and `{}` for unsigned integers, with a reader for each. Module `Outcomes`
holds `Option` and `Result`. Every panic the model keeps is a `Result.Err` whose
`Fault` names the failing step. `MissingKey(c)` is a failed table lookup.
`OctalTooShort(n)` is the slice of a mode whose octal form has fewer than
three digits.

The translator is imperative in the source: it fills a map, then appends to a
mutable string in a `for` loop. `Utils.OctToRwxPermissions` is a method with
that loop. Its invariant keeps the result equal to the specification function
`Translate` on the prefix read so far. `Config::new` overwrites a local
struct field by field while it scans. `Command.NewConfig` is a loop over the
tokens, proved equal to the fold `Scan`. `run`, `LongListItem::new` and
`Display::fmt` are expression code in the source, so they are functions here.

Behaviour of the code that is easy to miss:

- The permission digits are the last three characters of
  `format!("{:o}", mode)`, not the low three octal digits of the mode. The two
  agree only for modes of at least 0o100. Below that, the slice
  `oct.len() - 3` fails. `PermissionDigits` fails exactly for modes below 64.
- A permission digit can be 3 (write and execute), for example in 0o100730.
  The table has no key for it, so the translator's `unwrap` panics. The model
  keeps that failure: `NewLongListItem` fails with `MissingKey('3')`.
- The argument list includes the program name, as `std::env::args` gives it.
  A program name without a hyphen is therefore a path token. With `ls` and no
  other path, the listing is of the program name: `Main(["prog", "ls"])` is
  `ShortListing("prog")`.

## Model

| member | source | states |
|---|---|---|
| Utils.Translate | src/utils.rs:15-19 | A successful result has three characters per input character. A failure is a `MissingKey` fault naming a character of the input that the table lacks. |
| Utils.OctToRwxPermissions | src/utils.rs:3-20 | The loop returns `Translate(oct)`: the triplets of the characters in input order, or the fault of the first character the table lacks. |
| Utils.TableFollowsBits | src/utils.rs:6-13 | The table's keys are exactly the octal digits other than '3'. Each key maps to the triplet of its read (4), write (2) and execute (1) bits. |
| Utils.TranslateAppend | src/utils.rs:15-17 | One more character keeps an earlier fault, appends the triplet of a table key, or fails on a missing key. |
| Utils.TranslateKeepsFault | src/utils.rs:15-16 | Once a prefix has failed, the characters after it do not change the outcome. |
| Utils.TranslateOkIff | src/utils.rs:15-17 | The translation succeeds if and only if every character is a table key. |
| Utils.TranslateFirstFault | src/utils.rs:16 | The fault names the first character outside the table: '3', a digit above 7, or any non-digit. |
| Utils.TranslateLayout | src/utils.rs:15-17 | A successful output has exactly 3 characters per input character. Characters 3i to 3i+2 are the triplet of input character i, so owner, group and other keep their order. |
| Utils.TranslateAlphabet | src/utils.rs:7-17 | Every output character is '-' or the letter of its place in the triplet: 'r' first, 'w' second, 'x' third. |
| Utils.TripletLetters | src/utils.rs:7-13 | Every triplet in the table has three characters, each '-' or the letter of its place. |
| Utils.TranslateDigits | src/utils.rs:15-17 | Three table keys translate to their three triplets concatenated in order. |
| Utils.TranslateCommonModes | src/utils.rs:7-17 | "" gives "", "755" gives "rwxr-xr-x", "644" gives "rw-r--r--" and "000" gives "---------". |
| Utils.TranslateRejects | src/utils.rs:13-16 | "730" and "3a" fail on '3'. "6a4" fails on 'a'. |
| Numerals.ToRadix | src/lib.rs:37 | A printed number is a non-empty string of digits of the base. It has no leading zero, and its last digit is the number modulo the base. |
| Numerals.FromToRadix | src/lib.rs:37 | Reading a printed number back gives the number. |
| Numerals.ToFromRadix | src/lib.rs:37 | Printing the value of a numeral without a leading zero gives the numeral back. |
| Numerals.OctalLastThree | src/lib.rs:37-38 | The octal form has at least three digits if and only if the mode is at least 0o100. Its last three digits are then the mode's octal digits of weight 0o100, 0o10 and 1, so the type, set-id and sticky bits are cut off. |
| LongList.PermissionDigits | src/lib.rs:37-38 | The slice succeeds if and only if the mode is at least 64. It then gives the three low octal digits; otherwise it fails with the octal length. |
| LongList.TranslateOctalDigits | src/lib.rs:38-39 | Three octal digits translate if and only if none is 3. A failure names '3'. |
| LongList.NewLongListItem | src/lib.rs:32-80 | The item exists if and only if the mode is at least 0o100 and none of its permission digits is 3. The fault is the short octal form or the missing '3'. The type is 'd' if and only if the entry is a directory, and '-' otherwise. The permissions have 9 characters. Links, size, owner, group, date and name are copied unchanged. |
| LongList.NewItemPermissionBits | src/lib.rs:36-39 | Permission character k is its letter ('r', 'w' or 'x' by place) if and only if mode bit 0o400 >> k is set, and '-' otherwise. |
| LongList.Render | src/lib.rs:82-96 | The row starts with the type character, then the permissions, then two spaces, and ends with one space and the file name. |
| LongList.LongRow | src/lib.rs:152-156 | The line printed for one entry exists if and only if the mode is at least 0o100 and no permission digit is 3, and otherwise carries the fault. It starts with 'd' if and only if the entry is a directory, and '-' otherwise, and it ends with a space and the name. |
| LongList.RenderReadsBack | src/lib.rs:82-96 | The row of an item with 9-character permissions and a space-free owner and group reads back to its type, permissions, link count, owner, group, size, and the date followed by the name. |
| LongList.LongRowMeaning | src/lib.rs:32-96 | The row exists if and only if the item does, and carries its fault otherwise. Its first character is 'd' if and only if the entry is a directory. The next nine show the mode's permission bits. With a space-free owner and group, it reads back to the entry's link count, owner, group, size, date and name. |
| LongList.RenderExample | src/lib.rs:84-95 | A concrete item prints as "-rw-r--r--  1  root  root 0  01 Jan 00:00 a". |
| LongList.LongRowExample | src/lib.rs:84-95 | A regular file with mode 0o100644, one link and size 0 gives the row "-rw-r--r--  1  root  root 0  01 Jan 00:00 a". |
| Command.Classify | src/lib.rs:107-115 | One token writes exactly one field and leaves the other two unchanged. A hyphen token becomes the flag, the token `ls` sets the tool to "ls", and any other token becomes the path. No field changes in any other way. |
| Command.Scan | src/lib.rs:101-115 | After the scan the tool is empty or "ls". A non-empty flag is a hyphen token of the arguments, and a non-empty path is a path token of the arguments. |
| Command.NewConfig | src/lib.rs:100-118 | The scan starts from three empty fields, applies each token in order, and always returns `Ok` with `Scan(args)`. |
| Command.ScanFlag | src/lib.rs:107-109 | The flag is empty if and only if no token has a hyphen. Otherwise it is the last hyphen token. |
| Command.ScanPath | src/lib.rs:112-113 | The path is the last token that is neither a flag nor `ls`, and empty when there is none. |
| Command.ScanTool | src/lib.rs:110-111 | The tool is "ls" if and only if some token is `ls`, and empty otherwise. |
| Command.LastFlagWitness | src/lib.rs:107-109 | A non-empty flag is a token with no hyphen token after it. |
| Command.Run | src/lib.rs:121-128 | "-h" selects help. "-l" selects a long listing of the path. Every other flag, the empty one included, selects a short listing of the path. Run never does nothing. |
| Command.Main | src/main.rs:6-10 | Nothing happens if and only if no token is `ls`. Help needs a "-h" token and a long listing a "-l" token. A listing is of an argument or of the empty path. |
| Command.MainMeaning | src/main.rs:6-10 | Nothing happens if and only if no token is `ls`. Otherwise the last hyphen token selects help ("-h"), a long listing ("-l") or a short listing (anything else), of the last path token. |
| Command.MainExamples | src/main.rs:6-10 | ["prog","ls","-l","/tmp"] lists /tmp in long format. ["prog","ls","/tmp","-h"] shows help. ["prog","/tmp"] does nothing. ["prog","ls"] short-lists "prog". |
| Command.ShortLine | src/lib.rs:134 | A short-mode line is the entry name followed by exactly one space. |

## Left out

- Directory enumeration is not modelled: `read_dir`, the per-entry metadata fetch and the `println!` of each line in `standard_ls` and `list_ls` (src/lib.rs:130-160). This is filesystem I/O with no fixed order. Only the per-entry line functions are modelled.
- User and group name resolution is not modelled (src/lib.rs:45-54): `User::from_uid` and `Group::from_gid` query the system's identity databases. `owner` and `group` are opaque strings in `Metadata`, so the `unwrap`s on a failed lookup do not appear.
- Date handling is not modelled (src/lib.rs:60-64): the local time-zone offset from the clock, `from_timestamp_opt` and the chrono `%d %h %H:%M` format. `date` is an opaque string, so the `unwrap` on an out-of-range timestamp does not appear.
- `help_func` (src/lib.rs:140-144) prints fixed text. It is the `Help` action here.
- Collecting `std::env::args` in src/main.rs is process glue. The tokens are a parameter, and the `tool == "ls"` guard is `Command.Main`.
- Integer widths: the mode is `u32` and the link count and size are `u64` in the source. They are `nat` here. Octal and decimal printing does not depend on the width.
- The translator's map is built by seven inserts at run time. Here it is a constant map with the same seven entries.
- LongList.RenderReadsBack: the reader stops after the size and returns the date and the name as one text. Both may contain spaces, so the row does not mark where one ends and the other begins.
