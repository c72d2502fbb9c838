/** The Assets-folder-size label of `PlayModeZoneExample5`: its carrier, its text, and the
    unit chosen by `FormatBytes`.

    `FormatBytes` picks one of four units by comparing the 64-bit byte count with the
    constants `OneKB`, `OneMB` and `OneGB`, divides by the unit, and prints the quotient
    with at most two decimals. The unit choice is integer arithmetic and is modelled
    exactly; the quotient is modelled as an exact real, and printing it is a parameter. */
module PlayModeZoneExample5 {
  import opened ProviderTypes

  /** C#'s `long`. */
  newtype Int64 = x: int | -0x8000_0000_0000_0000 <= x < 0x8000_0000_0000_0000

  /** Largest value of C#'s `int`. */
  const Int32Max: int := 0x7FFF_FFFF

  const OneKB: int := 1024
  const OneMB: int := OneKB * 1024
  const OneGB: int := OneMB * 1024

  /** Refresh interval of the label, in milliseconds. */
  const UpdateIntervalInMS: int := 5000

  const TextPrefix := "Assets Folder Size: "

  datatype SizeUnit = Bytes | Kilobytes | Megabytes | Gigabytes

  /** Position of a unit in increasing size. */
  function Rank(u: SizeUnit): nat {
    match u
    case Bytes => 0
    case Kilobytes => 1
    case Megabytes => 2
    case Gigabytes => 3
  }

  /** The text printed after the number. */
  function Suffix(u: SizeUnit): string {
    match u
    case Bytes => " B"
    case Kilobytes => " KB"
    case Megabytes => " MB"
    case Gigabytes => " GB"
  }

  /** The number of bytes in one unit: each is 1024 times the one before, and the largest
      still fits in a C# `int`. */
  function Divisor(u: SizeUnit): (d: int)
    ensures 0 < d <= Int32Max
    ensures u == Bytes ==> d == 1
    ensures u != Bytes ==> d == 1024 * Divisor(Smaller(u))
    decreases Rank(u)
  {
    match u
    case Bytes => 1
    case Kilobytes => OneKB
    case Megabytes => OneMB
    case Gigabytes => OneGB
  }

  /** The unit one step below `u` (Bytes has none and maps to itself). */
  function Smaller(u: SizeUnit): SizeUnit {
    match u
    case Bytes => Bytes
    case Kilobytes => Bytes
    case Megabytes => Kilobytes
    case Gigabytes => Megabytes
  }

  /** The switch of `FormatBytes`: the first arm whose bound exceeds `bytes`, or GB. */
  function SelectUnit(bytes: Int64): (u: SizeUnit)
    ensures u == Bytes <==> bytes as int < OneKB
    ensures u == Kilobytes <==> OneKB <= bytes as int < OneMB
    ensures u == Megabytes <==> OneMB <= bytes as int < OneGB
    ensures u == Gigabytes <==> OneGB <= bytes as int
  {
    if bytes as int < OneKB then Bytes
    else if bytes as int < OneMB then Kilobytes
    else if bytes as int < OneGB then Megabytes
    else Gigabytes
  }

  /** The quotient `FormatBytes` prints, as an exact real. */
  function ScaledValue(bytes: Int64): real {
    bytes as real / Divisor(SelectUnit(bytes)) as real
  }

  /** `FormatBytes(bytes)`, with the printing of the quotient (`"0.##"`, invariant
      culture) supplied as `render`. */
  function FormatBytes(bytes: Int64, render: real -> string): (text: string)
    ensures var suffix := Suffix(SelectUnit(bytes));
      |suffix| <= |text| && text[|text| - |suffix|..] == suffix
    ensures text[..|text| - |Suffix(SelectUnit(bytes))|] == render(ScaledValue(bytes))
  {
    render(ScaledValue(bytes)) + Suffix(SelectUnit(bytes))
  }

  /** `GetText()`: the prefix followed by the formatted size. */
  function GetText(totalSize: Int64, render: real -> string): (text: string)
    ensures |TextPrefix| <= |text| && text[..|TextPrefix|] == TextPrefix
    ensures text[|TextPrefix|..] == FormatBytes(totalSize, render)
  {
    TextPrefix + FormatBytes(totalSize, render)
  }

  /** `ProvideElement()`: the carrier of this label, refreshing every five seconds. */
  function ProvideElement(getText: TextGetter): (carrier: UpdatableLabelCarrier)
    ensures carrier.updateIntervalInMS == 5000 && carrier.textGetter == getText
  {
    UpdatableLabelCarrier(getText, UpdateIntervalInMS)
  }

  /** A larger byte count never selects a smaller unit. */
  lemma UnitIsMonotone(a: Int64, b: Int64)
    requires a <= b
    ensures Rank(SelectUnit(a)) <= Rank(SelectUnit(b))
  {
  }

  /** Below the largest unit the exact quotient is at least 1 and below 1024; in the
      largest unit it is at least 1 and unbounded; in bytes it is the byte count itself,
      negative counts included. */
  lemma ScaledValueRange(bytes: Int64)
    ensures SelectUnit(bytes) == Bytes ==> ScaledValue(bytes) == bytes as real
    ensures SelectUnit(bytes) in {Kilobytes, Megabytes} ==> 1.0 <= ScaledValue(bytes) < 1024.0
    ensures SelectUnit(bytes) == Gigabytes ==> 1.0 <= ScaledValue(bytes)
  {
    var u := SelectUnit(bytes);
    var d := Divisor(u) as real;
    var x := bytes as real;
    if u != Bytes {
      assert d <= x;
      if u != Gigabytes {
        assert x < 1024.0 * d;
        assert x / d < 1024.0;
      }
    }
  }
}
