/** The permission translator of src/utils.rs: octal permission digits to the
    symbolic `rwx` form, one three-character triplet per digit.
 */
module Utils {
  import opened Outcomes

  /** The lookup table the translator fills before its loop. It has seven
      keys: there is no entry for the digit '3' (write and execute). */
  const OctToRwx: map<char, string> :=
    map['7' := "rwx", '6' := "rw-", '5' := "r-x", '4' := "r--",
        '2' := "-w-", '1' := "--x", '0' := "---"]

  /** What an octal permission digit means: its 4 bit grants read, its 2 bit
      write and its 1 bit execute; a cleared bit shows as '-'. */
  function RwxOfBits(v: nat): (t: string)
    requires v < 8
  {
    [if v / 4 % 2 == 1 then 'r' else '-',
     if v / 2 % 2 == 1 then 'w' else '-',
     if v % 2 == 1 then 'x' else '-']
  }

  /** The table holds exactly the octal digits other than '3', and maps each
      to the triplet its read, write and execute bits give. */
  lemma TableFollowsBits()
    ensures forall c :: c in OctToRwx <==> '0' <= c <= '7' && c != '3'
    ensures forall c :: c in OctToRwx ==> OctToRwx[c] == RwxOfBits(c as int - '0' as int)
  {
  }

  /** The translator's result as a whole: the triplets of the characters in
      input order, or the fault of the first character the table lacks (the
      `unwrap` of the table lookup panics there). */
  function Translate(oct: string): (r: Result<string>)
    ensures r.Ok? ==> |r.value| == 3 * |oct|
    ensures r.Err? ==> r.fault.MissingKey? && r.fault.key in oct && r.fault.key !in OctToRwx
    decreases |oct|
  {
    if oct == [] then Ok("")
    else
      var front :- Translate(oct[..|oct| - 1]);
      var c := oct[|oct| - 1];
      if c in OctToRwx then Ok(front + OctToRwx[c]) else Err(MissingKey(c))
  }

  /** `oct_to_rwx_permissions`: one table lookup per character, each found
      triplet appended to the result. */
  method OctToRwxPermissions(oct: string) returns (r: Result<string>)
    ensures r == Translate(oct)
  {
    var result := "";
    for i := 0 to |oct|
      invariant Translate(oct[..i]) == Ok(result)
    {
      var c := oct[i];
      assert oct[..i + 1][..i] == oct[..i];
      if c !in OctToRwx {
        TranslateKeepsFault(oct[..i + 1], oct[i + 1..]);
        assert oct[..i + 1] + oct[i + 1..] == oct;
        return Err(MissingKey(c));
      }
      result := result + OctToRwx[c];
    }
    assert oct[..|oct|] == oct;
    return Ok(result);
  }

  /** One more character: a fault stays, a table key appends its triplet,
      any other character is the fault. */
  lemma TranslateAppend(front: string, c: char)
    ensures Translate(front + [c]) ==
      if Translate(front).Err? then Translate(front)
      else if c in OctToRwx then Ok(Translate(front).value + OctToRwx[c])
      else Err(MissingKey(c))
  {
    assert (front + [c])[..|front|] == front;
  }

  /** Once a prefix has failed, the characters after it change nothing. */
  lemma {:induction false} TranslateKeepsFault(front: string, rest: string)
    requires Translate(front).Err?
    ensures Translate(front + rest) == Translate(front)
    decreases |rest|
  {
    if rest != [] {
      var init := rest[..|rest| - 1];
      TranslateKeepsFault(front, init);
      TranslateAppend(front + init, rest[|rest| - 1]);
      assert front + rest == front + init + [rest[|rest| - 1]];
    } else {
      assert front + rest == front;
    }
  }

  /** The translation succeeds exactly when every character is a table key. */
  lemma {:induction false} TranslateOkIff(oct: string)
    ensures Translate(oct).Ok? <==> forall i :: 0 <= i < |oct| ==> oct[i] in OctToRwx
    decreases |oct|
  {
    if oct != [] {
      var front := oct[..|oct| - 1];
      TranslateOkIff(front);
      assert forall i :: 0 <= i < |front| ==> front[i] == oct[i];
    }
  }

  /** The fault names the first character the table lacks: '3', a digit of
      eight or more, or any non-digit. */
  lemma {:induction false} TranslateFirstFault(oct: string, i: nat)
    requires i < |oct| && oct[i] !in OctToRwx
    requires forall j :: 0 <= j < i ==> oct[j] in OctToRwx
    ensures Translate(oct) == Err(MissingKey(oct[i]))
  {
    var front := oct[..i + 1];
    TranslateOkIff(front[..i]);
    assert forall j :: 0 <= j < i ==> front[..i][j] == oct[j];
    assert front[..i] == oct[..i];
    assert Translate(front) == Err(MissingKey(oct[i]));
    TranslateKeepsFault(front, oct[i + 1..]);
    assert front + oct[i + 1..] == oct;
  }

  /** A successful translation is three characters per input character, and
      characters 3i to 3i+2 are the triplet of input character i, so the
      owner, group and other digits keep their order. */
  lemma {:induction false} TranslateLayout(oct: string)
    requires Translate(oct).Ok?
    ensures |Translate(oct).value| == 3 * |oct|
    ensures forall i :: 0 <= i < |oct| ==>
      oct[i] in OctToRwx && Translate(oct).value[3 * i..3 * i + 3] == OctToRwx[oct[i]]
    decreases |oct|
  {
    if oct != [] {
      var front := oct[..|oct| - 1];
      TranslateLayout(front);
      var p := Translate(front).value;
      var t := Translate(oct).value;
      var c := oct[|oct| - 1];
      assert t == p + OctToRwx[c];
      forall i | 0 <= i < |oct|
        ensures oct[i] in OctToRwx && t[3 * i..3 * i + 3] == OctToRwx[oct[i]]
      {
        if i < |front| {
          assert front[i] == oct[i];
          assert t[3 * i..3 * i + 3] == p[3 * i..3 * i + 3];
        } else {
          assert t[3 * i..3 * i + 3] == OctToRwx[c];
        }
      }
    }
  }

  /** A successful translation uses only 'r', 'w', 'x' and '-', and each of
      its characters sits where its letter belongs: 'r' first, 'w' second,
      'x' third in every triplet. */
  lemma TranslateAlphabet(oct: string)
    requires Translate(oct).Ok?
    ensures forall j :: 0 <= j < |Translate(oct).value| ==>
      Translate(oct).value[j] in {'-', "rwx"[j % 3]}
  {
    var t := Translate(oct).value;
    TranslateLayout(oct);
    forall j | 0 <= j < |t| ensures t[j] in {'-', "rwx"[j % 3]} {
      var i := j / 3;
      assert t[3 * i..3 * i + 3][j % 3] == t[j];
      TripletLetters(oct[i]);
    }
  }

  /** Each triplet of the table has 'r', 'w', 'x' or '-' in its places. */
  lemma TripletLetters(c: char)
    requires c in OctToRwx
    ensures |OctToRwx[c]| == 3
    ensures forall k :: 0 <= k < 3 ==> OctToRwx[c][k] in {'-', "rwx"[k]}
  {
  }

  /** The empty input translates to the empty string, and the common modes
      translate as a listing shows them. */
  lemma TranslateCommonModes()
    ensures Translate("") == Ok("")
    ensures Translate("755") == Ok("rwxr-xr-x")
    ensures Translate("644") == Ok("rw-r--r--")
    ensures Translate("000") == Ok("---------")
  {
    TranslateDigits('7', '5', '5');
    TranslateDigits('6', '4', '4');
    TranslateDigits('0', '0', '0');
    assert "rwx" + "r-x" + "r-x" == "rwxr-xr-x";
    assert "rw-" + "r--" + "r--" == "rw-r--r--";
    assert "---" + "---" + "---" == "---------";
    assert ['7', '5', '5'] == "755" && ['6', '4', '4'] == "644" && ['0', '0', '0'] == "000";
  }

  /** '3' and non-digits are faults, and the first one is reported. */
  lemma TranslateRejects()
    ensures Translate("730") == Err(MissingKey('3'))
    ensures Translate("6a4") == Err(MissingKey('a'))
    ensures Translate("3a") == Err(MissingKey('3'))
  {
    TranslateFirstFault("730", 1);
    TranslateFirstFault("6a4", 1);
    TranslateFirstFault("3a", 0);
  }

  /** Three table keys translate to their three triplets in order. */
  lemma TranslateDigits(a: char, b: char, c: char)
    requires a in OctToRwx && b in OctToRwx && c in OctToRwx
    ensures Translate([a, b, c]) == Ok(OctToRwx[a] + OctToRwx[b] + OctToRwx[c])
  {
    TranslateAppend([], a);
    assert [] + OctToRwx[a] == OctToRwx[a];
    assert Translate([a]) == Ok(OctToRwx[a]);
    TranslateAppend([a], b);
    TranslateAppend([a, b], c);
    assert [] + [a] == [a] && [a] + [b] == [a, b] && [a, b] + [c] == [a, b, c];
  }
}
