/**
 * The editable time-spent field: minutes rendered as "Nm", "Hh" or
 * "Hh Mm", text parsed back with the regular expressions `(\d+)h`,
 * `(\d+)m` and `^(\d+)$`, and the edit / save / cancel state.
 */
module EditableTime {
  import opened Wrappers
  import opened Text

  /** `formatTime(minutes)`. */
  function FormatTime(minutes: int): string {
    if minutes < 60 then IntToString(minutes) + "m"
    else
      var hours := minutes / 60;
      var remainingMinutes := minutes % 60;
      if remainingMinutes > 0 then NatToString(hours) + "h " + NatToString(remainingMinutes) + "m"
      else NatToString(hours) + "h"
  }

  /** Length of the run of digits at the start of s. */
  function RunLen(s: string): (n: nat)
    ensures n <= |s| && AllDigits(s[..n])
    ensures n < |s| ==> !IsDigit(s[n])
    ensures s != [] && IsDigit(s[0]) ==> n >= 1
    decreases |s|
  {
    if s != [] && IsDigit(s[0]) then
      var n := 1 + RunLen(s[1..]);
      assert s[..n] == [s[0]] + s[1..][..n - 1];
      n
    else 0
  }

  /**
   * `s.match(/(\d+)c/)` for a letter c: the value of the first maximal run
   * of digits that is immediately followed by c. A match cannot start in
   * the middle of a run, since it would end where the run ends.
   */
  function Match(s: string, c: char): Option<nat>
    decreases |s|
  {
    if s == [] then None
    else if !IsDigit(s[0]) then Match(s[1..], c)
    else
      var j := RunLen(s);
      if j < |s| && s[j] == c then Some(ParseDigits(s[..j])) else Match(s[j..], c)
  }

  /** A digit immediately followed by c: where `/\d+c/` can match. */
  predicate DigitBefore(s: string, c: char, k: int) {
    1 <= k < |s| && IsDigit(s[k - 1]) && s[k] == c
  }

  /** The pattern `(\d+)c` matches s exactly when some digit of s is followed by c. */
  lemma {:induction false} MatchIffDigitBefore(s: string, c: char)
    requires !IsDigit(c)
    ensures Match(s, c).Some? <==> exists k :: DigitBefore(s, c, k)
    decreases |s|
  {
    if s == [] {
    } else if !IsDigit(s[0]) {
      var t := s[1..];
      MatchIffDigitBefore(t, c);
      forall k | DigitBefore(s, c, k) ensures DigitBefore(t, c, k - 1) {
        assert k >= 2;
      }
      forall k | DigitBefore(t, c, k) ensures DigitBefore(s, c, k + 1) {
        assert t[k - 1] == s[k] && t[k] == s[k + 1];
      }
    } else {
      var j := RunLen(s);
      if j < |s| && s[j] == c {
        assert s[..j][j - 1] == s[j - 1];
        assert DigitBefore(s, c, j);
      } else {
        var t := s[j..];
        MatchIffDigitBefore(t, c);
        assert forall i :: 0 <= i < j ==> s[..j][i] == s[i];
        forall k | DigitBefore(s, c, k) ensures DigitBefore(t, c, k - j) {
        }
        forall k | DigitBefore(t, c, k) ensures DigitBefore(s, c, k + j) {
          assert t[k - 1] == s[k + j - 1] && t[k] == s[k + j];
        }
      }
    }
  }

  /**
   * s[i..k] is the run `(\d+)c` captures first: a maximal run of digits
   * ending right before the letter at k, with no earlier digit followed by c.
   */
  predicate FirstRun(s: string, c: char, i: int, k: int) {
    && 0 <= i < k < |s| && s[k] == c && AllDigits(s[i..k])
    && (i == 0 || !IsDigit(s[i - 1]))
    && forall k' :: 0 <= k' < k ==> !DigitBefore(s, c, k')
  }

  /** A first run found in s[j..] is the first run of s when no digit in s[..j + 1] is followed by c. */
  lemma FirstRunShift(s: string, c: char, j: int, i: int, k: int)
    requires 1 <= j <= |s| && FirstRun(s[j..], c, i, k)
    requires i > 0 || !IsDigit(s[j - 1])
    requires forall k' :: 0 <= k' <= j ==> !DigitBefore(s, c, k')
    ensures FirstRun(s, c, i + j, k + j) && s[i + j..k + j] == s[j..][i..k]
  {
    var t := s[j..];
    assert s[i + j..k + j] == t[i..k];
    assert i > 0 ==> s[i + j - 1] == t[i - 1];
    forall k' | j < k' < k + j ensures !DigitBefore(s, c, k') {
      assert s[k' - 1] == t[k' - j - 1] && s[k'] == t[k' - j];
      assert !DigitBefore(t, c, k' - j);
    }
  }

  /** A digit run at the start of s that ends right before c is the first run. */
  lemma FirstRunAtStart(s: string, c: char, j: int)
    requires !IsDigit(c) && 1 <= j < |s| && s[j] == c && AllDigits(s[..j])
    ensures FirstRun(s, c, 0, j) && s[0..j] == s[..j]
  {
    forall k' | 0 <= k' < j ensures !DigitBefore(s, c, k') {
      assert s[..j][k'] == s[k'];
    }
  }

  /** A match reads the value of the first digit run that is followed by c. */
  lemma {:induction false} MatchIsFirstRun(s: string, c: char)
    requires !IsDigit(c)
    ensures Match(s, c).Some? ==> exists i, k :: FirstRun(s, c, i, k) && Match(s, c).value == ParseDigits(s[i..k])
    decreases |s|
  {
    if s == [] {
    } else if !IsDigit(s[0]) {
      var t := s[1..];
      MatchIsFirstRun(t, c);
      if Match(t, c).Some? {
        var i, k :| FirstRun(t, c, i, k) && Match(t, c).value == ParseDigits(t[i..k]);
        FirstRunShift(s, c, 1, i, k);
        assert Match(s, c).value == ParseDigits(s[i + 1..k + 1]);
      }
    } else {
      var j := RunLen(s);
      if j < |s| && s[j] == c {
        FirstRunAtStart(s, c, j);
        assert Match(s, c).value == ParseDigits(s[0..j]);
      } else {
        var t := s[j..];
        assert Match(s, c) == Match(t, c);
        MatchIsFirstRun(t, c);
        if Match(t, c).Some? {
          var i, k :| FirstRun(t, c, i, k) && Match(t, c).value == ParseDigits(t[i..k]);
          assert t[i..k][0] == t[i];
          forall k' | 0 <= k' <= j ensures !DigitBefore(s, c, k') {
            if k' < j {
              assert s[..j][k'] == s[k'];
            }
          }
          FirstRunShift(s, c, j, i, k);
          assert Match(s, c).value == ParseDigits(s[i + j..k + j]);
        }
      }
    }
  }

  /** There is only one first run. */
  lemma FirstRunUnique(s: string, c: char, i: int, k: int, i2: int, k2: int)
    requires FirstRun(s, c, i, k) && FirstRun(s, c, i2, k2)
    ensures i == i2 && k == k2
  {
    DigitsOfRun(s, i, k);
    DigitsOfRun(s, i2, k2);
    assert DigitBefore(s, c, k) && DigitBefore(s, c, k2);
    assert k == k2;
  }

  /** Every position of a digit run holds a digit. */
  lemma DigitsOfRun(s: string, i: int, k: int)
    requires 0 <= i <= k <= |s| && AllDigits(s[i..k])
    ensures forall j :: i <= j < k ==> IsDigit(s[j])
  {
    forall j | i <= j < k ensures IsDigit(s[j]) {
      assert s[i..k][j - i] == s[j];
    }
  }

  /** Where a first run exists, the match is its value. */
  lemma MatchReadsFirstRun(s: string, c: char, i: int, k: int)
    requires !IsDigit(c) && FirstRun(s, c, i, k)
    ensures Match(s, c) == Some(ParseDigits(s[i..k]))
  {
    assert s[i..k][k - 1 - i] == s[k - 1];
    assert DigitBefore(s, c, k);
    MatchIffDigitBefore(s, c);
    MatchIsFirstRun(s, c);
    var i2, k2 :| FirstRun(s, c, i2, k2) && Match(s, c).value == ParseDigits(s[i2..k2]);
    FirstRunUnique(s, c, i, k, i2, k2);
  }

  /**
   * With an `h` part and an `m` part, the input reads as 60 times the first
   * digit run before `h` plus the first digit run before `m`.
   */
  lemma ParseReadsFirstRuns(input: string, ih: int, kh: int, im: int, km: int)
    requires FirstRun(input, 'h', ih, kh) && FirstRun(input, 'm', im, km)
    ensures ParseTimeInput(input) == 60 * ParseDigits(input[ih..kh]) + ParseDigits(input[im..km])
  {
    MatchReadsFirstRun(input, 'h', ih, kh);
    MatchReadsFirstRun(input, 'm', im, km);
  }

  /** `input.match(/^(\d+)$/)`: the whole input is a non-empty digit run. */
  function NumberOnly(input: string): Option<nat> {
    if input != [] && AllDigits(input) then Some(ParseDigits(input)) else None
  }

  /** `parseTimeInput(input)`. */
  function ParseTimeInput(input: string): (r: int)
    ensures r >= 0
  {
    var hourMatch := Match(input, 'h');
    var minMatch := Match(input, 'm');
    var numberOnlyMatch := NumberOnly(input);
    var total := (if hourMatch.Some? then hourMatch.value * 60 else 0) + (if minMatch.Some? then minMatch.value else 0);
    var totalMinutes := if numberOnlyMatch.Some? && hourMatch.None? && minMatch.None? then numberOnlyMatch.value else total;
    if totalMinutes < 0 then 0 else totalMinutes
  }

  /**
   * A bare number is read as minutes; text in which no digit is followed by
   * `h` or `m` and which is not a bare number reads as 0.
   */
  lemma ParseFallbacks(input: string)
    ensures input != [] && AllDigits(input) ==> ParseTimeInput(input) == ParseDigits(input)
    ensures !(input != [] && AllDigits(input)) && (forall k :: !DigitBefore(input, 'h', k) && !DigitBefore(input, 'm', k)) ==>
      ParseTimeInput(input) == 0
  {
    MatchIffDigitBefore(input, 'h');
    MatchIffDigitBefore(input, 'm');
    if input != [] && AllDigits(input) {
      assert forall k :: !DigitBefore(input, 'h', k) && !DigitBefore(input, 'm', k);
    }
  }

  /** The leading digit run of `d + rest` is d when rest does not start with a digit. */
  lemma {:induction false} RunLenOf(d: string, rest: string)
    requires AllDigits(d) && (rest == [] || !IsDigit(rest[0]))
    ensures RunLen(d + rest) == |d|
    decreases |d|
  {
    if d != [] {
      assert (d + rest)[1..] == d[1..] + rest;
      RunLenOf(d[1..], rest);
    }
  }

  /** Matching c against `d + [c] + rest` reads the number d. */
  lemma MatchHere(d: string, c: char, rest: string)
    requires d != [] && AllDigits(d) && !IsDigit(c)
    ensures Match(d + [c] + rest, c) == Some(ParseDigits(d))
  {
    var s := d + [c] + rest;
    RunLenOf(d, [c] + rest);
    assert s == d + ([c] + rest);
    assert s[..|d|] == d;
  }

  /** Matching c against `d + rest`, with rest not starting with c or a digit, skips the run d. */
  lemma MatchSkip(d: string, c: char, rest: string)
    requires d != [] && AllDigits(d) && rest != [] && !IsDigit(rest[0]) && rest[0] != c
    ensures Match(d + rest, c) == Match(rest, c)
  {
    var s := d + rest;
    RunLenOf(d, rest);
    assert s[|d|..] == rest;
  }

  lemma RoundTripMinutes(v: int)
    requires 0 <= v < 60
    ensures ParseTimeInput(FormatTime(v)) == v
  {
    var d := NatToString(v);
    var s := FormatTime(v);
    assert s == d + "m" + [];
    MatchHere(d, 'm', []);
    assert s == d + "m";
    MatchSkip(d, 'h', "m");
    assert Match("m", 'h') == None by {
      assert "m"[1..] == [];
    }
    assert !AllDigits(s) by { assert s[|d|] == 'm'; }
    ParseNatToString(v);
  }

  lemma RoundTripWholeHours(v: int)
    requires v >= 60 && v % 60 == 0
    ensures ParseTimeInput(FormatTime(v)) == v
  {
    var hs := NatToString(v / 60);
    ParseNatToString(v / 60);
    var s := FormatTime(v);
    assert s == hs + "h" + [];
    MatchHere(hs, 'h', []);
    assert s == hs + "h";
    MatchSkip(hs, 'm', "h");
    assert Match("h", 'm') == None by {
      assert "h"[1..] == [];
    }
    assert !AllDigits(s) by { assert s[|hs|] == 'h'; }
  }

  /** In `H h M m` the hour pattern reads H. */
  lemma HourPartMatch(hs: string, rs: string)
    requires hs != [] && AllDigits(hs) && rs != [] && AllDigits(rs)
    ensures Match(hs + "h " + rs + "m", 'h') == Some(ParseDigits(hs))
  {
    var tail := " " + rs + "m";
    assert hs + "h " + rs + "m" == hs + "h" + tail;
    MatchHere(hs, 'h', tail);
  }

  /** In `H h M m` the minute pattern skips H and reads M. */
  lemma MinutePartMatch(hs: string, rs: string)
    requires hs != [] && AllDigits(hs) && rs != [] && AllDigits(rs)
    ensures Match(hs + "h " + rs + "m", 'm') == Some(ParseDigits(rs))
  {
    var tail := " " + rs + "m";
    assert hs + "h " + rs + "m" == hs + ("h" + tail);
    MatchSkip(hs, 'm', "h" + tail);
    assert ("h" + tail)[1..] == tail;
    assert tail[1..] == rs + "m";
    MatchHere(rs, 'm', []);
    assert rs + "m" + [] == rs + "m";
  }

  lemma RoundTripHoursAndMinutes(v: int)
    requires v >= 60 && v % 60 > 0
    ensures ParseTimeInput(FormatTime(v)) == v
  {
    var hs := NatToString(v / 60);
    var rs := NatToString(v % 60);
    ParseNatToString(v / 60);
    ParseNatToString(v % 60);
    var s := FormatTime(v);
    assert s == hs + "h " + rs + "m";
    HourPartMatch(hs, rs);
    MinutePartMatch(hs, rs);
  }

  /** Reading a field's own rendering gives back its value, for every natural value. */
  lemma FormatParseRoundTrip(v: int)
    requires v >= 0
    ensures ParseTimeInput(FormatTime(v)) == v
  {
    if v < 60 {
      RoundTripMinutes(v);
    } else if v % 60 == 0 {
      RoundTripWholeHours(v);
    } else {
      RoundTripHoursAndMinutes(v);
    }
  }

  /** A negative value does not survive the round trip: its sign is lost. */
  lemma NegativeValueLosesSign()
    ensures FormatTime(-5) == "-5m"
    ensures ParseTimeInput(FormatTime(-5)) == 5
  {
    var s := FormatTime(-5);
    assert NatToString(5) == "5";
    assert s == "-5m";
    assert s[1..] == "5m";
    MatchHere("5", 'm', []);
    assert "5" + "m" + [] == "5m";
    MatchSkip("5", 'h', "m");
    assert "5" + "m" == "5m";
    assert Match("m", 'h') == None by {
      assert "m"[1..] == [];
    }
    assert !AllDigits(s) by { assert s[0] == '-'; }
  }

  /** The component's state: the shown `value`, read-only mode and the edit buffer. */
  class EditableTimeField {
    var value: int
    const readOnly: bool
    var isEditing: bool
    var tempValue: string

    constructor (value: int, readOnly: bool)
      ensures this.value == value && this.readOnly == readOnly
      ensures !isEditing && tempValue == ""
    {
      this.value := value;
      this.readOnly := readOnly;
      isEditing := false;
      tempValue := "";
    }

    /** `handleEdit`: start editing from the rendering of the value, unless read-only. */
    method HandleEdit()
      modifies this`isEditing, this`tempValue
      ensures readOnly ==> isEditing == old(isEditing) && tempValue == old(tempValue)
      ensures !readOnly ==> isEditing && tempValue == FormatTime(value)
    {
      if readOnly {
        return;
      }
      tempValue := FormatTime(value);
      isEditing := true;
    }

    /** The input's `onChange`. */
    method SetTempValue(text: string)
      modifies this`tempValue
      ensures tempValue == text
    {
      tempValue := text;
    }

    /**
     * `handleSave`: the returned value is what `onUpdate` is called with,
     * `None` when the parsed value equals the current one.
     */
    method HandleSave() returns (update: Option<int>)
      modifies this`isEditing
      ensures !isEditing
      ensures update.Some? <==> ParseTimeInput(tempValue) != value
      ensures update.Some? ==> update.value == ParseTimeInput(tempValue)
    {
      var newValue := ParseTimeInput(tempValue);
      update := None;
      if newValue != value {
        update := Some(newValue);
      }
      isEditing := false;
    }

    /** `handleCancel`: drop the text and leave editing mode. */
    method HandleCancel()
      modifies this`isEditing, this`tempValue
      ensures !isEditing && tempValue == ""
    {
      tempValue := "";
      isEditing := false;
    }
  }

  /** Opening the editor and saving without typing never calls `onUpdate`. */
  method EditThenSave(field: EditableTimeField) returns (update: Option<int>)
    requires !field.readOnly && field.value >= 0
    modifies field
    ensures update == None && !field.isEditing
  {
    field.HandleEdit();
    FormatParseRoundTrip(field.value);
    update := field.HandleSave();
  }
}
