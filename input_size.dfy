/** `checkInputSize`: the UTF-8 size of the input, as `new Blob([input]).size`
    measures it, compared against a warning threshold and a hard limit. */
module InputSize {

  const InputSizeWarningThreshold: nat := 100000
  const InputSizeLimit: nat := 5000000

  /** Bytes UTF-8 needs for one character. */
  function Utf8Width(c: char): (w: nat)
    ensures 1 <= w <= 4
    ensures w == 1 <==> (c as int) < 0x80
  {
    if (c as int) < 0x80 then 1
    else if (c as int) < 0x800 then 2
    else if (c as int) < 0x10000 then 3
    else 4
  }

  /** The UTF-8 encoded length of `s`. */
  function Utf8Length(s: string): (n: nat)
    ensures |s| <= n <= 4 * |s|
  {
    if s == [] then 0 else Utf8Width(s[0]) + Utf8Length(s[1..])
  }

  /** For ASCII text the size is the number of characters. */
  lemma {:induction false} AsciiLength(s: string)
    requires forall i :: 0 <= i < |s| ==> (s[i] as int) < 0x80
    ensures Utf8Length(s) == |s|
  {
    if s != [] {
      AsciiLength(s[1..]);
    }
  }

  /** The flags and size `checkInputSize` reports; the formatted size
      string is left out. */
  datatype SizeCheck = SizeCheck(isWarning: bool, isLimit: bool, size: nat)

  function CheckInputSize(input: string): (r: SizeCheck)
    ensures r.size == Utf8Length(input)
    ensures r.isWarning <==> r.size > InputSizeWarningThreshold
    ensures r.isLimit <==> r.size > InputSizeLimit
  {
    var size := Utf8Length(input);
    SizeCheck(size > InputSizeWarningThreshold, size > InputSizeLimit, size)
  }

  /** Every input over the limit is also over the warning threshold. */
  lemma LimitImpliesWarning(input: string)
    ensures CheckInputSize(input).isLimit ==> CheckInputSize(input).isWarning
  {
  }

  /** Inputs too short to reach a threshold even at four bytes a character
      raise no flag. */
  lemma ShortInputIsQuiet(input: string)
    requires 4 * |input| <= InputSizeWarningThreshold
    ensures !CheckInputSize(input).isWarning && !CheckInputSize(input).isLimit
  {
  }

  /** 150000 'x' characters measure 150000 bytes and raise the warning,
      but not the limit; "Hello World" raises neither. */
  lemma Examples()
    ensures CheckInputSize(seq(150000, _ => 'x')) == SizeCheck(true, false, 150000)
    ensures CheckInputSize("Hello World") == SizeCheck(false, false, 11)
  {
    AsciiLength(seq(150000, _ => 'x'));
    AsciiLength("Hello World");
  }
}
