/**
 * The firmware-image safety check run before a program command is sent:
 * a size-only test for `.bin` paths, otherwise one pass over the Intel HEX
 * lines looking for the CC2538 bootloader backdoor configuration word.
 */
module ImageCheck {
  import opened Wrappers

  const FlashSize: nat := 512 * 1024
  const FlashPageSize: nat := 2048
  /** A `.bin` image strictly smaller than this cannot reach the last flash page. */
  const BinSizeLimit: nat := FlashSize - FlashPageSize

  /** The extended linear address record selecting upper address 0x0027. */
  const ExtAddressRecord: string := ":020000040027D3"
  /** Lower 16-bit address of the backdoor configuration word (0x0027FFD4). */
  const BackdoorAddress: string := "FFD4"
  /** Backdoor and bootloader enabled, active-low PA6 trigger. */
  const BackdoorEnabledBytes: string := "FFFFFFF6"

  /**
   * What `_check_image` returns or raises: the class object
   * `OpenTBCmdRunner` (truthy) from the `.bin` shortcut, the final flag, or
   * a ValueError from `int(line[1:3], 16)`.
   */
  datatype Verdict = RunnerClass | Flag(value: bool) | ValueError

  predicate Truthy(v: Verdict) {
    v.RunnerClass? || v == Flag(true)
  }

  /** Python's `s[i:j]` for 0 <= i <= j: clamped to the string. */
  function Slice(s: string, i: nat, j: nat): (r: string)
    requires i <= j
    ensures j <= |s| ==> r == s[i..j]
    ensures i < j && |r| == j - i ==> j <= |s|
  {
    if |s| <= i then "" else if |s| <= j then s[i..] else s[i..j]
  }

  /** The substring test `sub in s`. */
  predicate Contains(s: string, sub: string)
    decreases |s|
  {
    (|sub| <= |s| && s[..|sub|] == sub) || (|s| > 0 && Contains(s[1..], sub))
  }

  function HexDigit(c: char): Option<int> {
    if '0' <= c <= '9' then Some(c as int - '0' as int)
    else if 'a' <= c <= 'f' then Some(c as int - 'a' as int + 10)
    else if 'A' <= c <= 'F' then Some(c as int - 'A' as int + 10)
    else None
  }

  /**
   * The characters `int()` strips as whitespace: the six ASCII ones, and
   * the non-ASCII ones Python turns into a space before parsing. The ASCII
   * separators U+001C to U+001F are left in place, so they make `int()` raise.
   */
  predicate IsSpace(c: char) {
    c in {' ', '\t', '\n', '\r', '\U{000B}', '\U{000C}',
          '\U{0085}', '\U{00A0}', '\U{1680}', '\U{2028}', '\U{2029}', '\U{202F}', '\U{205F}', '\U{3000}'}
    || '\U{2000}' <= c <= '\U{200A}'
  }

  /**
   * `int(s, 16)` on a two-character string: two hex digits, a sign and a
   * digit, or one digit beside whitespace; None where Python raises.
   */
  function ParseHex2(s: string): (r: Option<int>)
    requires |s| == 2
    ensures r.Some? ==> -15 <= r.value <= 255
    ensures HexDigit(s[0]).Some? && HexDigit(s[1]).Some? ==>
              r == Some(16 * HexDigit(s[0]).value + HexDigit(s[1]).value)
    ensures HexDigit(s[0]).None? && HexDigit(s[1]).None? ==> r.None?
  {
    var a, b := HexDigit(s[0]), HexDigit(s[1]);
    if a.Some? && b.Some? then Some(16 * a.value + b.value)
    else if b.Some? && s[0] == '-' then Some(-b.value)
    else if b.Some? && (s[0] == '+' || IsSpace(s[0])) then Some(b.value)
    else if a.Some? && IsSpace(s[1]) then Some(a.value)
    else None
  }

  /** A byte count with an ASCII separator beside a digit does not parse; one with a space does. */
  lemma SeparatorIsNoSpace()
    ensures ParseHex2("\U{001C}5") == None
    ensures ParseHex2(" 5") == Some(5)
  {
    assert !IsSpace('\U{001C}') && HexDigit('\U{001C}') == None;
  }

  predicate IsExtAddressLine(line: string) {
    Slice(line, 0, 15) == ExtAddressRecord
  }

  predicate AtBackdoorAddress(line: string) {
    Slice(line, 3, 7) == BackdoorAddress
  }

  /** A data line at FFD4 whose byte count is unparsable: `int()` raises. */
  predicate BadByteCount(line: string) {
    AtBackdoorAddress(line) && ParseHex2(line[1..3]).None?
  }

  /** A data line at FFD4 with byte count above 4 carrying FFFFFFF6 at columns 9..17. */
  predicate IsBackdoorRecord(line: string) {
    AtBackdoorAddress(line) && ParseHex2(line[1..3]).Some? && ParseHex2(line[1..3]).value > 4
    && Slice(line, 9, 17) == BackdoorEnabledBytes
  }

  /** Some line at or after an extended address line satisfies `p`. */
  ghost predicate AfterExtAddress(lines: seq<string>, p: string -> bool) {
    exists i, j :: 0 <= i <= j < |lines| && IsExtAddressLine(lines[i]) && p(lines[j])
  }

  /**
   * The line scan's outcome, stated without the loop: it raises when a
   * line at or after the extended address record has an unparsable byte
   * count at FFD4, and is otherwise true iff some such line is the
   * backdoor record.
   */
  ghost function HexVerdict(lines: seq<string>): Verdict {
    if AfterExtAddress(lines, BadByteCount) then ValueError
    else Flag(AfterExtAddress(lines, IsBackdoorRecord))
  }

  ghost predicate ImageApproved(path: string, size: nat, lines: seq<string>) {
    (Contains(path, ".bin") && size < BinSizeLimit) || HexVerdict(lines) == Flag(true)
  }

  /**
   * `_check_image`: `size` is the file size and `lines` its text lines. A
   * path containing `.bin` of size below the limit is approved without its
   * lines being read; anything else is judged by the line scan.
   */
  method CheckImage(path: string, size: nat, lines: seq<string>) returns (v: Verdict)
    ensures Contains(path, ".bin") && size < BinSizeLimit ==> v == RunnerClass
    ensures !(Contains(path, ".bin") && size < BinSizeLimit) ==> v == HexVerdict(lines)
    ensures Truthy(v) <==> ImageApproved(path, size, lines)
  {
    if Contains(path, ".bin") {
      if size < BinSizeLimit {
        return RunnerClass;
      }
    }
    v := ScanLines(lines);
  }

  /**
   * The line loop of `_check_image`: the extended address flag and the
   * backdoor flag are sticky, and an unparsable byte count at FFD4 after
   * the extended address raises at once.
   */
  method ScanLines(lines: seq<string>) returns (v: Verdict)
    ensures v == HexVerdict(lines)
  {
    var backdoorEnabled := false;
    var extAddressFound := false;
    var k := 0;
    while k < |lines|
      invariant 0 <= k <= |lines|
      invariant extAddressFound <==> ExtAddressSeen(lines, k)
      invariant backdoorEnabled <==> AfterExtAddress(lines[..k], IsBackdoorRecord)
      invariant !AfterExtAddress(lines[..k], BadByteCount)
    {
      var line := lines[k];
      LineStep(lines, k, extAddressFound, backdoorEnabled);
      if Slice(line, 0, 15) == ExtAddressRecord {
        extAddressFound := true;
      }
      if extAddressFound && Slice(line, 3, 7) == BackdoorAddress {
        var count := ParseHex2(line[1..3]);
        if count.None? {
          return ValueError;
        }
        if count.value > 4 && Slice(line, 9, 17) == BackdoorEnabledBytes {
          backdoorEnabled := true;
        }
      }
      k := k + 1;
    }
    assert lines[..k] == lines;
    return Flag(backdoorEnabled);
  }

  /**
   * One iteration of the line loop: with the flags describing the first k
   * lines, line k either raises, and then the whole file does, or leaves
   * the flags describing the first k + 1 lines.
   */
  lemma LineStep(lines: seq<string>, k: nat, ext: bool, enabled: bool)
    requires k < |lines|
    requires ext <==> ExtAddressSeen(lines, k)
    requires enabled <==> AfterExtAddress(lines[..k], IsBackdoorRecord)
    requires !AfterExtAddress(lines[..k], BadByteCount)
    ensures var ext' := ext || IsExtAddressLine(lines[k]);
            (ext' <==> ExtAddressSeen(lines, k + 1))
            && (ext' && BadByteCount(lines[k]) ==> HexVerdict(lines) == ValueError)
            && (!(ext' && BadByteCount(lines[k])) ==>
                  !AfterExtAddress(lines[..k + 1], BadByteCount)
                  && ((enabled || (ext' && IsBackdoorRecord(lines[k])))
                      <==> AfterExtAddress(lines[..k + 1], IsBackdoorRecord)))
  {
    ExtAddressStep(lines, k);
    ScanStep(lines, k, IsBackdoorRecord);
    ScanStep(lines, k, BadByteCount);
    if (ext || IsExtAddressLine(lines[k])) && BadByteCount(lines[k]) {
      RaiseIsFinal(lines, k + 1);
    }
  }

  /** One of the first k lines is the extended address record. */
  ghost predicate ExtAddressSeen(lines: seq<string>, k: nat)
    requires k <= |lines|
  {
    exists i :: 0 <= i < k && IsExtAddressLine(lines[i])
  }

  /** An extended address line among the first k + 1 is one among the first k or line k. */
  lemma ExtAddressStep(lines: seq<string>, k: nat)
    requires k < |lines|
    ensures ExtAddressSeen(lines, k + 1) <==> ExtAddressSeen(lines, k) || IsExtAddressLine(lines[k])
  {
  }

  /** One more line: a match after the extended address is one in the shorter prefix or at line k. */
  lemma ScanStep(lines: seq<string>, k: nat, p: string -> bool)
    requires k < |lines|
    ensures AfterExtAddress(lines[..k + 1], p) <==>
              AfterExtAddress(lines[..k], p)
              || (p(lines[k]) && ExtAddressSeen(lines, k + 1))
  {
    var pre, pre1 := lines[..k], lines[..k + 1];
    if AfterExtAddress(pre1, p) {
      var i, j :| 0 <= i <= j < |pre1| && IsExtAddressLine(pre1[i]) && p(pre1[j]);
      if j < k {
        assert IsExtAddressLine(pre[i]) && p(pre[j]);
      }
    }
    if AfterExtAddress(pre, p) {
      var i, j :| 0 <= i <= j < |pre| && IsExtAddressLine(pre[i]) && p(pre[j]);
      assert IsExtAddressLine(pre1[i]) && p(pre1[j]);
    }
    if p(lines[k]) && ExtAddressSeen(lines, k + 1) {
      var i :| 0 <= i <= k && IsExtAddressLine(lines[i]);
      assert IsExtAddressLine(pre1[i]) && p(pre1[k]);
    }
  }

  /** Once a prefix raises, the whole file does. */
  lemma RaiseIsFinal(lines: seq<string>, k: nat)
    requires k <= |lines|
    requires AfterExtAddress(lines[..k], BadByteCount)
    ensures HexVerdict(lines) == ValueError
  {
    var i, j :| 0 <= i <= j < k && IsExtAddressLine(lines[..k][i]) && BadByteCount(lines[..k][j]);
    assert IsExtAddressLine(lines[i]) && BadByteCount(lines[j]);
  }

  /** A line matching after the extended address stays so when lines are appended. */
  lemma MatchSurvivesAppend(lines: seq<string>, more: seq<string>, p: string -> bool)
    ensures AfterExtAddress(lines, p) ==> AfterExtAddress(lines + more, p)
  {
    if AfterExtAddress(lines, p) {
      var i, j :| 0 <= i <= j < |lines| && IsExtAddressLine(lines[i]) && p(lines[j]);
      var all := lines + more;
      assert IsExtAddressLine(all[i]) && p(all[j]);
    }
  }

  /**
   * Both flags are sticky, so appending lines never turns an approved
   * image into a rejected one; it can only make a later malformed FFD4 line
   * raise.
   */
  lemma ApprovalSurvivesAppend(lines: seq<string>, more: seq<string>)
    requires HexVerdict(lines) == Flag(true)
    ensures HexVerdict(lines + more) in {Flag(true), ValueError}
  {
    MatchSurvivesAppend(lines, more, IsBackdoorRecord);
  }

  /** An image that configures the backdoor word as FFFFFFF6 after selecting page 0x0027 is safe. */
  lemma EnabledBackdoorAccepted()
    ensures HexVerdict([ExtAddressLine, EnabledBackdoorLine]) == Flag(true)
  {
    var lines := [ExtAddressLine, EnabledBackdoorLine];
    RecordFields(EnabledBackdoorLine, "FFFFFFF6");
    assert IsExtAddressLine(lines[0]) && IsBackdoorRecord(lines[1]);
    NoBadByteCount(lines);
  }

  /** The same record with last byte F7 leaves the backdoor word unsafe. */
  lemma OtherBackdoorBytesRejected()
    ensures HexVerdict([ExtAddressLine, OtherBackdoorLine]) == Flag(false)
  {
    var lines := [ExtAddressLine, OtherBackdoorLine];
    RecordFields(OtherBackdoorLine, "FFFFFFF7");
    assert "FFFFFFF7"[7] != BackdoorEnabledBytes[7];
    assert !IsBackdoorRecord(lines[0]) && !IsBackdoorRecord(lines[1]);
    NoBadByteCount(lines);
  }

  const ExtAddressLine: string := ExtAddressRecord + "\n"
  const EnabledBackdoorLine: string := ":0C" + BackdoorAddress + "00" + "FFFFFFF6" + "FFFFFFFF00200000B4\n"
  const OtherBackdoorLine: string := ":0C" + BackdoorAddress + "00" + "FFFFFFF7" + "FFFFFFFF00200000B3\n"

  /** The fields of a 12-byte data record at FFD4 whose first four data bytes are `data`. */
  lemma RecordFields(line: string, data: string)
    requires |data| == 8 && |line| >= 17
    requires line == ":0C" + BackdoorAddress + "00" + data + line[17..]
    ensures AtBackdoorAddress(line) && ParseHex2(line[1..3]) == Some(12)
    ensures Slice(line, 9, 17) == data
  {
    assert line[1..3] == "0C";
    assert line[3..7] == BackdoorAddress;
    assert line[9..17] == data;
  }

  lemma NoBadByteCount(lines: seq<string>)
    requires |lines| == 2 && lines[0] == ExtAddressLine
    requires AtBackdoorAddress(lines[1]) && ParseHex2(lines[1][1..3]).Some?
    ensures !AfterExtAddress(lines, BadByteCount)
  {
    assert ExtAddressLine[3..7] == "0000";
    assert !BadByteCount(lines[0]) && !BadByteCount(lines[1]);
  }
}
