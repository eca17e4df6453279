/** The bandwidth-limit popup of src/ui/widgets/speed_limit_popup.rs: the
    step rules of the arrow keys, the parser of typed limits (mebibytes when
    no unit is given), and `SpeedLimitState`, which edits one of two limits
    in place. */
module SpeedLimitPopup {
  import opened Wrappers
  import opened Text
  import opened LimitText
  import opened Models
  import opened Utils

  // ---------------------------------------------------------------------------
  // Step rules

  /** `increase_limit`'s rule: from unlimited to 1 MiB, then by 100 KiB below
      1 MiB, by 1 MiB below 10 MiB and by 5 MiB above. */
  function StepUp(current: nat): (r: nat)
    ensures r > current
    ensures current == 0 ==> r == MIB
    ensures current > 0 ==> r - current in {100 * KIB, MIB, 5 * MIB}
    ensures 0 < current < MIB ==> r == current + 100 * KIB
    ensures MIB <= current < 10 * MIB ==> r == current + MIB
    ensures current >= 10 * MIB ==> r == current + 5 * MIB
  {
    if current == 0 then MIB
    else if current < MIB then current + 100 * KIB
    else if current < 10 * MIB then current + MIB
    else current + 5 * MIB
  }

  /** `decrease_limit`'s rule: at most 100 KiB becomes unlimited, then down by
      100 KiB up to 1 MiB, by 1 MiB up to 10 MiB and by 5 MiB above.  The
      subtraction never reaches below zero. */
  function StepDown(current: nat): (r: nat)
    ensures r <= current
    ensures current > 0 ==> r < current
    ensures current <= 100 * KIB <==> r == 0
    ensures 100 * KIB < current <= MIB ==> r == current - 100 * KIB
    ensures MIB < current <= 10 * MIB ==> r == current - MIB
    ensures current > 10 * MIB ==> r == current - 5 * MIB
  {
    if current <= 100 * KIB then 0
    else if current <= MIB then current - 100 * KIB
    else if current <= 10 * MIB then current - MIB
    else current - 5 * MIB
  }

  /** A step down undoes a step up, except from unlimited, below 1 MiB when
      the step crosses it, and between 9 and 10 MiB, where the step up crosses
      into the 5 MiB band. */
  lemma StepDownUndoesStepUp(x: nat)
    requires (0 < x && x + 100 * KIB <= MIB) || (MIB <= x <= 9 * MIB) || x >= 10 * MIB
    ensures StepDown(StepUp(x)) == x
  {
  }

  /** From unlimited, up then down does not return to unlimited. */
  lemma StepFromUnlimited()
    ensures StepUp(0) == MIB && StepDown(StepUp(0)) == 924 * KIB
  {
  }

  // ---------------------------------------------------------------------------
  // Parsing typed limits

  /** The multiplier of `parse_speed_limit`: the unit's first letter, and
      mebibytes when there is no unit at all. */
  function MebibyteDefaultMultiplier(unit: string): (m: nat)
    ensures unit == [] ==> m == MIB
    ensures unit != [] ==> m == BytesDefaultMultiplier(unit)
  {
    if StartsWith(unit, "g") then GIB
    else if StartsWith(unit, "m") then MIB
    else if StartsWith(unit, "k") then KIB
    else if unit == [] then MIB
    else 1
  }

  /** The value `parse_speed_limit` returns for `input`: a byte count that
      fits a u64, and zero (unlimited) for blank input, "0", "unlimited" and
      "none" in any case. */
  function SpeedLimitValue(input: string): (r: Option<nat>)
    ensures r.Some? ==> r.value <= U64_MAX
    ensures Lower(Trim(input)) in {"", "0", "unlimited", "none"} ==> r == Some(0)
  {
    var s := Lower(Trim(input));
    if s == [] || s == "0" || s == "unlimited" || s == "none" then Some(0)
    else
      var st := ScanSpec(s);
      match DecimalValue(st.num)
      case None => None
      case Some(x) => Some(TruncateToU64(Scale(x, MebibyteDefaultMultiplier(st.unit))))
  }

  /** `parse_speed_limit`. */
  method ParseSpeedLimit(input: string) returns (r: Option<nat>)
    ensures r == SpeedLimitValue(input)
    ensures r.Some? ==> r.value <= U64_MAX
  {
    var s := Lower(Trim(input));
    if s == [] || s == "0" || s == "unlimited" || s == "none" {
      return Some(0);
    }
    var num, unit := ScanNumberAndUnit(s);
    var x := DecimalValue(num);
    if x.None? {
      return None;
    }
    r := Some(TruncateToU64(Scale(x.value, MebibyteDefaultMultiplier(unit))));
  }

  /** When the trimmed, lower-cased input is an integer, characters the
      scan skips and an optional unit, the value is the integer times the
      multiplier of the unit's first letter, truncated to u64. */
  lemma SpeedValueOfNormalized(input: string, ds: string, sep: string, u: string)
    requires Lower(Trim(input)) == ds + sep + u
    requires |ds| > 0 && IsDigits(ds)
    requires forall i :: 0 <= i < |sep| ==> IsSkipped(sep[i])
    requires u == [] || IsAlphabetic(u[0])
    ensures SpeedLimitValue(input) == Some(TruncateToU64(Scale(DigitsValue(ds) as real, MebibyteDefaultMultiplier(UnitHead(u)))))
  {
    var s := Lower(Trim(input));
    var m := MebibyteDefaultMultiplier(UnitHead(u));
    var x := DigitsValue(ds) as real;
    assert ScanSpec(s).num == ds && MebibyteDefaultMultiplier(ScanSpec(s).unit) == m by {
      ScanOfInteger(ds, sep, u);
      if u != [] { assert ScanSpec(s).unit[..1] == UnitHead(u); }
    }
    assert s != [] && IsDigit(s[0]) by {
      assert s[0] == ds[0];
    }
    if s == "0" {
      ZeroDigits(ds, sep, u);
      SpeedValueOfZero(input, m);
    } else {
      assert DecimalValue(ScanSpec(s).num) == Some(x);
      SpeedValueOfScan(input, x, m);
    }
  }

  /** "0" means no limit, which is zero bytes whatever the multiplier. */
  lemma SpeedValueOfZero(input: string, m: nat)
    requires Lower(Trim(input)) == "0"
    ensures SpeedLimitValue(input) == Some(TruncateToU64(Scale(0.0, m)))
  {
    assert Scale(0.0, m) == 0.0;
  }

  /** Past the words meaning "no limit", the value is the scanned number
      times the multiplier of the scanned unit. */
  lemma SpeedValueOfScan(input: string, x: real, m: nat)
    requires Lower(Trim(input)) != [] && IsDigit(Lower(Trim(input))[0]) && Lower(Trim(input)) != "0"
    requires DecimalValue(ScanSpec(Lower(Trim(input))).num) == Some(x)
    requires MebibyteDefaultMultiplier(ScanSpec(Lower(Trim(input))).unit) == m
    ensures SpeedLimitValue(input) == Some(TruncateToU64(Scale(x, m)))
  {
    var s := Lower(Trim(input));
    assert s != "unlimited" && s != "none";
  }

  /** An integer, then any characters the scan skips (spaces, '/'), then an
      optional unit, once trimmed and lower-cased: the value is the integer
      times the multiplier of the unit's first letter, mebibytes when there is
      no unit, saturating at the largest u64. */
  lemma {:induction false} SpeedLimitOfInteger(input: string, ds: string, sep: string, u: string)
    requires Lower(Trim(input)) == ds + sep + u
    requires |ds| > 0 && IsDigits(ds)
    requires forall i :: 0 <= i < |sep| ==> IsSkipped(sep[i])
    requires u == [] || IsAlphabetic(u[0])
    ensures var v := DigitsValue(ds) * MebibyteDefaultMultiplier(UnitHead(u));
            SpeedLimitValue(input) == Some(if v >= U64_MAX then U64_MAX else v)
  {
    SpeedValueOfNormalized(input, ds, sep, u);
    TruncateProduct(DigitsValue(ds), MebibyteDefaultMultiplier(UnitHead(u)));
  }

  /** The two limit parsers agree on an integer with a unit, whatever the
      case, the surrounding blanks and the characters between the two. */
  lemma ParsersAgreeWithUnit(input: string, ds: string, sep: string, u: string)
    requires Lower(Trim(input)) == ds + sep + u
    requires |ds| > 0 && IsDigits(ds)
    requires forall i :: 0 <= i < |sep| ==> IsSkipped(sep[i])
    requires u != [] && IsAlphabetic(u[0])
    ensures SpeedLimitValue(input) == LimitValue(input)
  {
    SpeedLimitOfInteger(input, ds, sep, u);
    LimitOfInteger(input, ds, sep, u);
    assert UnitHead(u) != [];
  }

  /** On a bare integer the popup reads mebibytes where the settings read
      bytes. */
  lemma ParsersDifferWithoutUnit(ds: string)
    requires |ds| > 0 && IsDigits(ds)
    ensures SpeedLimitValue(ds) == Some(Saturate(DigitsValue(ds) * MIB))
    ensures LimitValue(ds) == Some(Saturate(DigitsValue(ds)))
  {
    SpeedLimitOfBareInteger(ds);
    LimitOfBareInteger(ds);
  }

  /** The popup reads a bare integer as mebibytes. */
  lemma SpeedLimitOfBareInteger(ds: string)
    requires |ds| > 0 && IsDigits(ds)
    ensures SpeedLimitValue(ds) == Some(Saturate(DigitsValue(ds) * MIB))
  {
    var e: string := [];
    NormalizedAlready(ds);
    assert Lower(Trim(ds)) == ds + e + e;
    assert MebibyteDefaultMultiplier(UnitHead(e)) == MIB;
    SpeedLimitOfInteger(ds, ds, e, e);
  }

  /** The settings parser reads a bare integer as bytes. */
  lemma LimitOfBareInteger(ds: string)
    requires |ds| > 0 && IsDigits(ds)
    ensures LimitValue(ds) == Some(Saturate(DigitsValue(ds)))
  {
    var e: string := [];
    NormalizedAlready(ds);
    assert Lower(Trim(ds)) == ds + e + e;
    assert BytesDefaultMultiplier(UnitHead(e)) == 1;
    LimitOfInteger(ds, ds, e, e);
  }

  /** A whole number of bytes cast to u64, as `f64 as u64` does: kept while
      it fits, the largest u64 beyond. */
  function Saturate(v: nat): (r: nat)
    ensures r <= U64_MAX
    ensures v <= U64_MAX ==> r == v
    ensures v >= U64_MAX ==> r == U64_MAX
  {
    if v >= U64_MAX then U64_MAX else v
  }

  /** The words meaning "no limit", "none" included. */
  lemma SpeedLimitSpecialWords()
    ensures SpeedLimitValue("") == Some(0) && SpeedLimitValue("0") == Some(0)
  {
    TrimNoop("0");
  }

  /** "unlimited" means no limit. */
  lemma SpeedLimitUnlimited()
    ensures SpeedLimitValue("unlimited") == Some(0)
  {
    TrimNoop("unlimited");
    assert Lower("unlimited") == "unlimited";
  }

  /** "none" means no limit here, where the settings parser rejects it. */
  lemma SpeedLimitNone()
    ensures SpeedLimitValue("none") == Some(0)
  {
    TrimNoop("none");
    assert Lower("none") == "none";
  }

  /** "5" is five mebibytes. */
  lemma SpeedLimitFive()
    ensures SpeedLimitValue("5") == Some(5 * MIB)
  {
    var ds := "5";
    assert DigitsValue(ds) == 5;
    ParsersDifferWithoutUnit(ds);
  }

  /** "5m" is five mebibytes. */
  lemma SpeedLimitFiveMebibytes()
    ensures SpeedLimitValue("5m") == Some(5 * MIB)
  {
    NormalizedInteger("5", "m");
    assert "5" + "m" == "5m";
    assert DigitsValue("5") == 5;
    assert MebibyteDefaultMultiplier(UnitHead("m")) == MIB;
    SpeedLimitOfInteger("5m", "5", [], "m");
  }

  /** "1g" is one gibibyte. */
  lemma SpeedLimitOneGibibyte()
    ensures SpeedLimitValue("1g") == Some(GIB)
  {
    NormalizedInteger("1", "g");
    assert "1" + "g" == "1g";
    assert DigitsValue("1") == 1;
    assert MebibyteDefaultMultiplier(UnitHead("g")) == GIB;
    SpeedLimitOfInteger("1g", "1", [], "g");
  }

  /** "5 MB/s", the format the prompt suggests, is five mebibytes, and so is
      "5 mb/s"; the settings parser reads them the same way. */
  lemma SpeedLimitFiveMegabytesPerSecond()
    ensures SpeedLimitValue("5 MB/s") == Some(5 * MIB)
    ensures SpeedLimitValue("5 mb/s") == Some(5 * MIB)
    ensures LimitValue("5 MB/s") == SpeedLimitValue("5 MB/s")
  {
    var u := "mb/s";
    assert DigitsValue("5") == 5;
    assert MebibyteDefaultMultiplier(UnitHead(u)) == MIB by {
      assert UnitHead(u) != [] && UnitHead(u)[0] == 'm';
    }
    FiveMegabytesPerSecondNormalized("5 MB/s");
    SpeedLimitOfInteger("5 MB/s", "5", " ", u);
    ParsersAgreeWithUnit("5 MB/s", "5", " ", u);
    FiveMegabytesPerSecondNormalized("5 mb/s");
    SpeedLimitOfInteger("5 mb/s", "5", " ", u);
  }

  /** `format_speed_limit`: "Unlimited" exactly for zero, otherwise the speed
      in the largest unit up to GB. */
  function FormatSpeedLimit(limit: nat): (r: Rendered)
    ensures r == Text("Unlimited") <==> limit == 0
    ensures limit >= 1024 ==> WellScaled(r, limit, GB)
  {
    if limit == 0 then Text("Unlimited")
    else
      var r := FormatSpeed(limit);
      assert r != Text("Unlimited") by {
        if limit < 1024 {
          var t := NatToString(limit) + " B/s";
          assert t[|t| - 1] == 's';
        }
      }
      r
  }

  // ---------------------------------------------------------------------------
  // The popup's state

  class SpeedLimitState {
    var downloadLimit: nat
    var uploadLimit: nat
    /** Whether the download limit (rather than the upload limit) is edited. */
    var editingDownload: bool
    var inputBuffer: string

    /** `SpeedLimitState::new`. */
    constructor (download: nat, upload: nat)
      ensures downloadLimit == download && uploadLimit == upload
      ensures editingDownload && inputBuffer == []
    {
      downloadLimit := download;
      uploadLimit := upload;
      editingDownload := true;
      inputBuffer := [];
    }

    /** `SpeedLimitState::default`: both limits unlimited. */
    constructor Default()
      ensures downloadLimit == 0 && uploadLimit == 0
      ensures editingDownload && inputBuffer == []
    {
      downloadLimit := 0;
      uploadLimit := 0;
      editingDownload := true;
      inputBuffer := [];
    }

    /** `get_current_limit`: the limit being edited. */
    function CurrentLimit(): (n: nat)
      reads this
      ensures n == if editingDownload then downloadLimit else uploadLimit
    {
      if editingDownload then downloadLimit else uploadLimit
    }

    /** The limit not being edited. */
    function OtherLimit(): nat
      reads this
    {
      if editingDownload then uploadLimit else downloadLimit
    }

    /** `toggle_field`: the other limit is edited, with an empty box. */
    method ToggleField()
      modifies this
      ensures editingDownload == !old(editingDownload) && inputBuffer == []
      ensures downloadLimit == old(downloadLimit) && uploadLimit == old(uploadLimit)
      ensures CurrentLimit() == old(OtherLimit()) && OtherLimit() == old(CurrentLimit())
    {
      editingDownload := !editingDownload;
      inputBuffer := [];
    }

    /** `set_current_limit`: only the edited limit changes. */
    method SetCurrentLimit(limit: nat)
      modifies this
      ensures CurrentLimit() == limit && OtherLimit() == old(OtherLimit())
      ensures editingDownload == old(editingDownload) && inputBuffer == old(inputBuffer)
    {
      if editingDownload {
        downloadLimit := limit;
      } else {
        uploadLimit := limit;
      }
    }

    /** `increase_limit`. */
    method IncreaseLimit()
      modifies this
      ensures CurrentLimit() == StepUp(old(CurrentLimit())) && OtherLimit() == old(OtherLimit())
      ensures editingDownload == old(editingDownload) && inputBuffer == old(inputBuffer)
    {
      var current := CurrentLimit();
      var newLimit;
      if current == 0 {
        newLimit := MIB;
      } else if current < MIB {
        newLimit := current + 100 * KIB;
      } else if current < 10 * MIB {
        newLimit := current + MIB;
      } else {
        newLimit := current + 5 * MIB;
      }
      SetCurrentLimit(newLimit);
    }

    /** `decrease_limit`. */
    method DecreaseLimit()
      modifies this
      ensures CurrentLimit() == StepDown(old(CurrentLimit())) && OtherLimit() == old(OtherLimit())
      ensures editingDownload == old(editingDownload) && inputBuffer == old(inputBuffer)
    {
      var current := CurrentLimit();
      var newLimit;
      if current <= 100 * KIB {
        newLimit := 0;
      } else if current <= MIB {
        newLimit := current - 100 * KIB;
      } else if current <= 10 * MIB {
        newLimit := current - MIB;
      } else {
        newLimit := current - 5 * MIB;
      }
      SetCurrentLimit(newLimit);
    }

    /** `apply_input`: a parsable box sets the edited limit and is cleared;
        otherwise nothing changes. */
    method ApplyInput() returns (applied: bool)
      modifies this
      ensures applied <==> SpeedLimitValue(old(inputBuffer)).Some?
      ensures applied ==> CurrentLimit() == SpeedLimitValue(old(inputBuffer)).value && inputBuffer == []
      ensures !applied ==> CurrentLimit() == old(CurrentLimit()) && inputBuffer == old(inputBuffer)
      ensures OtherLimit() == old(OtherLimit()) && editingDownload == old(editingDownload)
    {
      var limit := ParseSpeedLimit(inputBuffer);
      if limit.Some? {
        SetCurrentLimit(limit.value);
        inputBuffer := [];
        applied := true;
      } else {
        applied := false;
      }
    }
  }

  /** The state tests of the source: toggling twice edits the download limit
      again; from unlimited, up, up, down gives 1 MiB; 500 KiB down gives
      400 KiB; "5m" applied sets 5 MiB and empties the box. */
  method PopupScenario() returns (s: SpeedLimitState)
    ensures s.editingDownload && s.downloadLimit == 5 * MIB && s.inputBuffer == []
  {
    s := new SpeedLimitState(0, 0);
    s.ToggleField();
    s.ToggleField();
    assert s.editingDownload;
    s.IncreaseLimit();
    assert s.downloadLimit == MIB;
    s.IncreaseLimit();
    assert s.downloadLimit == 2 * MIB;
    s.DecreaseLimit();
    assert s.downloadLimit == MIB;
    s.downloadLimit := 500 * KIB;
    s.DecreaseLimit();
    assert s.downloadLimit == 400 * KIB;
    s.inputBuffer := "5m";
    SpeedLimitFiveMebibytes();
    var ok := s.ApplyInput();
    assert ok;
  }
}
