/** The long-format row of src/lib.rs: `LongListItem::new` turns one entry's
    metadata and name into a row record, and its `Display` writes the record
    as one line of text.
 */
module LongList {
  import opened Outcomes
  import opened Numerals
  import opened Utils

  /** What the row is built from: the fields of the entry's metadata that the
      listing reads. `owner`, `group` and `date` are the texts the user and
      group databases and the date formatter give back for it. */
  datatype Metadata = Metadata(
    isDir: bool,
    mode: nat,
    nlink: nat,
    size: nat,
    owner: string,
    group: string,
    date: string)

  datatype LongListItem = LongListItem(
    fileType: char,
    permissions: string,
    hardLinksCount: nat,
    owner: string,
    group: string,
    size: nat,
    date: string,
    fileName: string)

  /** The permission bits of a mode, in the order a listing shows them:
      owner read, write, execute (0o400, 0o200, 0o100), then group, then
      other. */
  const ModeBits: seq<nat> := [256, 128, 64, 32, 16, 8, 4, 2, 1]

  predicate HasBit(mode: nat, k: nat)
    requires k < 9
  {
    mode / ModeBits[k] % 2 == 1
  }

  /** True when none of the three permission digits of `mode` is 3, the one
      digit the translator's table lacks. */
  predicate DigitsInTable(mode: nat) {
    mode / 64 % 8 != 3 && mode / 8 % 8 != 3 && mode % 8 != 3
  }

  /** The digits handed to the translator: the last three characters of the
      octal form of the mode. Fewer than three characters make the slice
      panic, which happens exactly for modes below 0o100. */
  function PermissionDigits(mode: nat): (r: Result<string>)
    ensures r.Ok? <==> mode >= 64
    ensures r.Err? ==> r.fault == OctalTooShort(|NatToOctal(mode)|)
    ensures r.Ok? ==> r.value == [DigitChar(mode / 64 % 8), DigitChar(mode / 8 % 8), DigitChar(mode % 8)]
  {
    OctalLastThree(mode);
    var oct := NatToOctal(mode);
    if |oct| < 3 then Err(OctalTooShort(|oct|)) else Ok(oct[|oct| - 3..])
  }

  /** `LongListItem::new`: the file-type character, the symbolic permissions
      and the fields copied from the metadata and the name. It fails for a
      mode below 0o100 and for a permission digit 3. */
  function NewLongListItem(md: Metadata, fileName: string): (r: Result<LongListItem>)
    ensures r.Ok? <==> md.mode >= 64 && DigitsInTable(md.mode)
    ensures r.Err? ==> r.fault == if md.mode < 64 then OctalTooShort(|NatToOctal(md.mode)|) else MissingKey('3')
    ensures r.Ok? ==> (r.value.fileType == 'd' <==> md.isDir) && r.value.fileType in {'d', '-'}
    ensures r.Ok? ==> |r.value.permissions| == 9
    ensures r.Ok? ==> r.value.hardLinksCount == md.nlink && r.value.size == md.size
    ensures r.Ok? ==> r.value.owner == md.owner && r.value.group == md.group && r.value.date == md.date
    ensures r.Ok? ==> r.value.fileName == fileName
  {
    var fileType := if md.isDir then 'd' else '-';
    var digits :- PermissionDigits(md.mode);
    TranslateOctalDigits(digits);
    var permissions :- Translate(digits);
    TranslateLayout(digits);
    Ok(LongListItem(fileType, permissions, md.nlink, md.owner, md.group, md.size, md.date, fileName))
  }

  /** Three octal digits translate unless one of them is 3, and then the
      fault names '3'. */
  lemma TranslateOctalDigits(digits: string)
    requires |digits| == 3 && forall i :: 0 <= i < 3 ==> '0' <= digits[i] <= '7'
    ensures Translate(digits).Ok? <==> '3' !in digits
    ensures Translate(digits).Err? ==> Translate(digits).fault == MissingKey('3')
  {
    TableFollowsBits();
    TranslateOkIff(digits);
    if digits[0] == '3' {
      TranslateFirstFault(digits, 0);
    } else if digits[1] == '3' {
      TranslateFirstFault(digits, 1);
    } else if digits[2] == '3' {
      TranslateFirstFault(digits, 2);
    }
  }

  /** Each permission character shows its letter ('r', 'w' or 'x', by its
      place in the triplet) exactly when the mode bit it stands for is set,
      and '-' when it is clear. */
  lemma NewItemPermissionBits(md: Metadata, fileName: string)
    requires NewLongListItem(md, fileName).Ok?
    ensures forall k :: 0 <= k < 9 ==>
      NewLongListItem(md, fileName).value.permissions[k]
        == if HasBit(md.mode, k) then "rwx"[k % 3] else '-'
  {
    var m := md.mode;
    var perms := NewLongListItem(md, fileName).value.permissions;
    var c2, c1, c0 := DigitChar(m / 64 % 8), DigitChar(m / 8 % 8), DigitChar(m % 8);
    assert PermissionDigits(m) == Ok([c2, c1, c0]);
    TableFollowsBits();
    TranslateDigits(c2, c1, c0);
    assert perms == RwxOfBits(m / 64 % 8) + RwxOfBits(m / 8 % 8) + RwxOfBits(m % 8);
    ModeQuotients(m);
    forall k | 0 <= k < 9
      ensures perms[k] == if HasBit(m, k) then "rwx"[k % 3] else '-'
    {
      PermissionBitAt(m, perms, k);
    }
  }

  /** One position of the permissions: the digit it belongs to and the bit
      of that digit. */
  lemma PermissionBitAt(m: nat, perms: string, k: nat)
    requires k < 9
    requires perms == RwxOfBits(m / 64 % 8) + RwxOfBits(m / 8 % 8) + RwxOfBits(m % 8)
    ensures perms[k] == if HasBit(m, k) then "rwx"[k % 3] else '-'
  {
    ModeQuotients(m);
    if k < 3 {
      DigitBits(m / 64);
      assert perms[k] == RwxOfBits(m / 64 % 8)[k];
    } else if k < 6 {
      DigitBits(m / 8);
      assert perms[k] == RwxOfBits(m / 8 % 8)[k - 3];
    } else {
      DigitBits(m);
      assert perms[k] == RwxOfBits(m % 8)[k - 6];
    }
  }

  /** The bits of one octal digit of `n` are the low bits of `n`. */
  lemma DigitBits(n: nat)
    ensures n % 8 / 4 % 2 == n / 4 % 2
    ensures n % 8 / 2 % 2 == n / 2 % 2
    ensures n % 8 % 2 == n % 2
  {
    var q, r := n / 8, n % 8;
    assert n == 8 * q + r;
    assert n / 4 % 2 == r / 4 by {
      assert n == 4 * (2 * q + r / 4) + r % 4;
      assert n / 4 == 2 * q + r / 4;
    }
    assert n / 2 % 2 == r / 2 % 2 by {
      assert n == 2 * (4 * q + r / 2) + r % 2;
      assert n / 2 == 2 * (2 * q) + r / 2;
    }
    assert n % 2 == r % 2 by {
      assert n == 2 * (4 * q) + r;
    }
  }

  /** Dividing by a digit's weight and then within the digit is dividing by
      the bit's weight. */
  lemma ModeQuotients(m: nat)
    ensures m / 64 / 4 == m / 256 && m / 64 / 2 == m / 128
    ensures m / 8 / 4 == m / 32 && m / 8 / 2 == m / 16
  {
    assert m / 64 / 4 == m / 256 by {
      assert m == 256 * (m / 64 / 4) + 64 * (m / 64 % 4) + m % 64;
    }
    assert m / 64 / 2 == m / 128 by {
      assert m == 128 * (m / 64 / 2) + 64 * (m / 64 % 2) + m % 64;
    }
    assert m / 8 / 4 == m / 32 by {
      assert m == 32 * (m / 8 / 4) + 8 * (m / 8 % 4) + m % 8;
    }
    assert m / 8 / 2 == m / 16 by {
      assert m == 16 * (m / 8 / 2) + 8 * (m / 8 % 2) + m % 8;
    }
  }

  /** `Display for LongListItem`: the fields in order, with two spaces
      between them except one before the size and one before the name. */
  function Render(item: LongListItem): (row: string)
    ensures |row| > |item.permissions| + |item.fileName| + 3
    ensures row[0] == item.fileType
    ensures row[1..1 + |item.permissions|] == item.permissions
    ensures row[1 + |item.permissions|..3 + |item.permissions|] == "  "
    ensures row[|row| - |item.fileName| - 1..] == " " + item.fileName
  {
    [item.fileType] + (item.permissions
    + ("  " + (NatToDecimal(item.hardLinksCount)
    + ("  " + (item.owner
    + ("  " + (item.group
    + (" " + (NatToDecimal(item.size)
    + ("  " + (item.date
    + (" " + item.fileName))))))))))))
  }

  /** The whole long-format line of one entry, or the fault that ends the
      listing instead. */
  function LongRow(md: Metadata, fileName: string): (r: Result<string>)
    ensures r.Ok? <==> md.mode >= 64 && DigitsInTable(md.mode)
    ensures r.Err? ==> r.fault == if md.mode < 64 then OctalTooShort(|NatToOctal(md.mode)|) else MissingKey('3')
    ensures r.Ok? ==> |r.value| > |fileName| + 12
    ensures r.Ok? ==> (r.value[0] == 'd' <==> md.isDir) && r.value[0] in {'d', '-'}
    ensures r.Ok? ==> r.value[|r.value| - |fileName| - 1..] == " " + fileName
  {
    var item :- NewLongListItem(md, fileName);
    Ok(Render(item))
  }

  /** What a reader of a row can take back from it: the type character, the
      permissions, the two counts, the owner and the group, and the text
      after the size (the date and the name, which may hold spaces). */
  datatype RowFields = RowFields(
    fileType: char,
    permissions: string,
    hardLinksCount: nat,
    owner: string,
    group: string,
    size: nat,
    dateAndName: string)

  /** The longest prefix of `s` without a space. */
  function Token(s: string): (t: string)
    ensures |t| <= |s|
  {
    if s == [] || s[0] == ' ' then [] else [s[0]] + Token(s[1..])
  }

  function DropPrefix(s: string, p: string): Option<string> {
    if |p| <= |s| && s[..|p|] == p then Some(s[|p|..]) else None
  }

  /** A space-free field and the separator after it; gives the field and
      what follows the separator. */
  function ReadField(s: string, sep: string): Option<(string, string)> {
    var field := Token(s);
    var rest :- DropPrefix(s[|field|..], sep);
    Some((field, rest))
  }

  /** A decimal count and the separator after it. */
  function ReadCount(s: string, sep: string): Option<(nat, string)> {
    var (text, rest) :- ReadField(s, sep);
    if |text| >= 1 && AllDigitsIn(text, 10) then Some((FromRadix(text, 10), rest)) else None
  }

  /** Reads a row back, field by field, by the separators `Render` writes. */
  function ParseRow(row: string): Option<RowFields> {
    if |row| < 10 then None
    else
      var s1 :- DropPrefix(row[10..], "  ");
      var (links, s2) :- ReadCount(s1, "  ");
      var (owner, s3) :- ReadField(s2, "  ");
      var (group, s4) :- ReadField(s3, " ");
      var (size, rest) :- ReadCount(s4, "  ");
      Some(RowFields(row[0], row[1..10], links, owner, group, size, rest))
  }

  /** A word without spaces followed by a space is read back as that word. */
  lemma {:induction false} TokenBeforeSpace(t: string, rest: string)
    requires ' ' !in t
    ensures Token(t + " " + rest) == t
    decreases |t|
  {
    if t != [] {
      TokenBeforeSpace(t[1..], rest);
      assert (t + " " + rest)[1..] == t[1..] + " " + rest;
    }
  }

  /** A printed count followed by a separator is read back as the count. */
  lemma ReadCountBack(n: nat, sep: string, rest: string)
    requires sep == " " || sep == "  "
    ensures ReadCount(NatToDecimal(n) + (sep + rest), sep) == Some((n, rest))
  {
    FromToRadix(n, 10);
    var t := NatToDecimal(n);
    assert forall i :: 0 <= i < |t| ==> IsDigitIn(t[i], 10);
    assert ' ' !in t;
    ReadWord(t, sep, rest);
  }

  /** One step of reading: a space-free word, a separator of spaces, and the
      rest. */
  lemma ReadWord(t: string, sep: string, rest: string)
    requires ' ' !in t && (sep == " " || sep == "  ")
    ensures ReadField(t + (sep + rest), sep) == Some((t, rest))
  {
    var s := t + (sep + rest);
    assert Token(s) == t by {
      TokenBeforeSpace(t, sep[1..] + rest);
      assert s == t + " " + (sep[1..] + rest);
    }
    assert s[|t|..] == sep + rest by {
      AfterPrefix(t, sep + rest);
    }
    assert DropPrefix(sep + rest, sep) == Some(rest) by {
      AfterPrefix(sep, rest);
    }
  }

  lemma AfterPrefix(a: string, b: string)
    ensures (a + b)[|a|..] == b && (a + b)[..|a|] == a
  {
  }

  /** Rendering loses nothing a reader needs: when the permissions have nine
      characters and neither the owner nor the group contains a space, the
      row reads back to the item's fields. */
  lemma RenderReadsBack(item: LongListItem)
    requires |item.permissions| == 9
    requires ' ' !in item.owner && ' ' !in item.group
    ensures ParseRow(Render(item)) == Some(RowFields(
      item.fileType, item.permissions, item.hardLinksCount, item.owner,
      item.group, item.size, item.date + (" " + item.fileName)))
  {
    var links, size := NatToDecimal(item.hardLinksCount), NatToDecimal(item.size);
    var tail4 := size + ("  " + (item.date + (" " + item.fileName)));
    var tail3 := item.group + (" " + tail4);
    var tail2 := item.owner + ("  " + tail3);
    var tail1 := links + ("  " + tail2);
    var row := Render(item);
    assert row == [item.fileType] + (item.permissions + ("  " + tail1));
    assert row[0] == item.fileType && row[1..10] == item.permissions && row[10..] == "  " + tail1 by {
      AfterPrefix([item.fileType] + item.permissions, "  " + tail1);
      assert row == ([item.fileType] + item.permissions) + ("  " + tail1);
    }
    AfterPrefix("  ", tail1);
    ReadCountBack(item.hardLinksCount, "  ", tail2);
    ReadWord(item.owner, "  ", tail3);
    ReadWord(item.group, " ", tail4);
    ReadCountBack(item.size, "  ", item.date + (" " + item.fileName));
  }

  /** What one long-format line says about its entry: it exists exactly
      when the item can be built; it starts with 'd' exactly for a
      directory; the next nine characters show the nine permission bits;
      and, with a space-free owner and group, it reads back to the link
      count, owner, group, size, date and name of the entry. */
  lemma LongRowMeaning(md: Metadata, fileName: string)
    ensures LongRow(md, fileName).Ok? <==> md.mode >= 64 && DigitsInTable(md.mode)
    ensures LongRow(md, fileName).Err? ==> LongRow(md, fileName).fault == NewLongListItem(md, fileName).fault
    ensures LongRow(md, fileName).Ok? ==>
      |LongRow(md, fileName).value| >= 10 && (LongRow(md, fileName).value[0] == 'd' <==> md.isDir)
    ensures LongRow(md, fileName).Ok? ==> forall k :: 0 <= k < 9 ==>
      LongRow(md, fileName).value[1..10][k] == if HasBit(md.mode, k) then "rwx"[k % 3] else '-'
    ensures LongRow(md, fileName).Ok? && ' ' !in md.owner && ' ' !in md.group ==>
      ParseRow(LongRow(md, fileName).value) == Some(RowFields(
        LongRow(md, fileName).value[0], LongRow(md, fileName).value[1..10],
        md.nlink, md.owner, md.group, md.size, md.date + (" " + fileName)))
  {
    var r := NewLongListItem(md, fileName);
    if r.Ok? {
      var item := r.value;
      var row := Render(item);
      assert row == [item.fileType] + item.permissions + (row[10..]);
      assert row[1..10] == item.permissions;
      NewItemPermissionBits(md, fileName);
      if ' ' !in md.owner && ' ' !in md.group {
        RenderReadsBack(item);
      }
    }
  }

  /** A regular file with mode 0o100644, one link and size zero. */
  lemma LongRowExample()
    ensures LongRow(Metadata(false, 0x81A4, 1, 0, "root", "root", "01 Jan 00:00"), "a")
      == Ok("-rw-r--r--  1  root  root 0  01 Jan 00:00 a")
  {
    var md := Metadata(false, 0x81A4, 1, 0, "root", "root", "01 Jan 00:00");
    var item := LongListItem('-', "rw-r--r--", 1, "root", "root", 0, "01 Jan 00:00", "a");
    assert NewLongListItem(md, "a") == Ok(item) by {
      assert PermissionDigits(md.mode) == Ok("644");
      TranslateCommonModes();
    }
    RenderExample();
  }

  lemma RenderExample()
    ensures Render(LongListItem('-', "rw-r--r--", 1, "root", "root", 0, "01 Jan 00:00", "a"))
      == "-rw-r--r--  1  root  root 0  01 Jan 00:00 a"
  {
    var one, zero := NatToDecimal(1), NatToDecimal(0);
    assert one == "1" && zero == "0";
    RowText(one, zero);
  }

  lemma RowText(one: string, zero: string)
    requires one == "1" && zero == "0"
    ensures ['-'] + ("rw-r--r--" + ("  " + (one + ("  " + ("root" + ("  " + ("root"
      + (" " + (zero + ("  " + ("01 Jan 00:00" + (" " + "a"))))))))))))
      == "-rw-r--r--  1  root  root 0  01 Jan 00:00 a"
  {
    var tail := " " + (zero + ("  " + ("01 Jan 00:00" + (" " + "a"))));
    assert tail == " 0  01 Jan 00:00 a";
    assert ['-'] + ("rw-r--r--" + ("  " + (one + ("  " + ("root" + ("  " + ("root" + tail)))))))
      == "-rw-r--r--  1  root  root" + tail;
  }
}
