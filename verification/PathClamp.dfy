/** The shared digipeater path presets: counting hops in a byte, clamping a selection to the
    AX.25 limit when it is saved, and building the path suffix that goes on the air. */
module PathClamp {
  const PRESETS: nat := 4
  const MAX_HOPS: nat := 8
  const PRESET_MAX: nat := 71

  /** Four slots, each at most 71 characters. */
  predicate IsPresets(p: seq<string>) {
    |p| == PRESETS && forall b :: 0 <= b < PRESETS ==> |p[b]| <= PRESET_MAX
  }

  function Commas(s: string): (n: nat)
    ensures n <= |s|
  {
    if s == "" then 0 else Commas(s[..|s| - 1]) + if s[|s| - 1] == ',' then 1 else 0
  }

  /** An empty slot adds nothing. */
  function Hops(preset: string): nat {
    if preset == "" then 0 else 1 + Commas(preset)
  }

  /** True hops of the selected slots below n; a selection is the set of its bits. */
  function Total(mask: set<nat>, p: seq<string>, n: nat): nat
    requires IsPresets(p) && n <= PRESETS
  {
    if n == 0 then 0 else Total(mask, p, n - 1) + if n - 1 in mask then Hops(p[n - 1]) else 0
  }

  method PresetHops(preset: string) returns (hops: nat)
    requires |preset| <= PRESET_MAX
    ensures hops == Hops(preset) <= 72
  {
    if preset == "" {
      return 0;
    }
    hops := 1;
    for i := 0 to |preset|
      invariant hops == 1 + Commas(preset[..i])
    {
      assert preset[..i + 1][..i] == preset[..i];
      if preset[i] == ',' {
        hops := (hops + 1) % 256;
      }
    }
    assert preset[..|preset|] == preset;
  }

  lemma AddInByte(a: nat, b: nat)
    ensures (a % 256 + b) % 256 == (a + b) % 256
  {
  }

  /** The count is kept in a byte. */
  method HopCount(mask: set<nat>, p: seq<string>) returns (hops: nat)
    requires IsPresets(p)
    ensures hops == Total(mask, p, PRESETS) % 256
  {
    hops := 0;
    for bit := 0 to PRESETS
      invariant hops == Total(mask, p, bit) % 256
    {
      if bit in mask {
        var h := PresetHops(p[bit]);
        AddInByte(Total(mask, p, bit), h);
        hops := (hops + h) % 256;
      }
    }
  }

  // ---- Clamping ----

  /** The slots kept from `bit` on, low bit first, with `used` hops spent already. */
  function Keep(mask: set<nat>, p: seq<string>, bit: nat, used: nat): set<nat>
    requires IsPresets(p) && bit <= PRESETS
    decreases |p| - bit
  {
    if bit == PRESETS then {}
    else if bit !in mask || p[bit] == "" then Keep(mask, p, bit + 1, used)
    else if used + Hops(p[bit]) > MAX_HOPS then {}
    else {bit} + Keep(mask, p, bit + 1, used + Hops(p[bit]))
  }

  function Clamped(mask: set<nat>, p: seq<string>): set<nat>
    requires IsPresets(p)
  {
    if Total(mask, p, PRESETS) % 256 <= MAX_HOPS then mask else Keep(mask, p, 0, 0)
  }

  method MaskClamp(mask: set<nat>, p: seq<string>) returns (clamped: set<nat>)
    requires IsPresets(p)
    ensures clamped == Clamped(mask, p)
  {
    var count := HopCount(mask, p);
    if count <= MAX_HOPS {
      return mask;
    }
    clamped := {};
    var used: nat := 0;
    ghost var all := Keep(mask, p, 0, used);
    for bit := 0 to PRESETS
      invariant all == clamped + Keep(mask, p, bit, used)
    {
      if bit in mask && p[bit] != "" {
        var h := PresetHops(p[bit]);
        if used + h > MAX_HOPS {
          return;
        }
        clamped := clamped + {bit};
        used := used + h;
      }
    }
  }

  /** Where keeping low bits first has to stop: the first slot that takes the running
      total over the budget. */
  function Stop(mask: set<nat>, p: seq<string>, bit: nat): (d: nat)
    requires IsPresets(p) && bit <= PRESETS
    ensures bit <= d <= PRESETS
    ensures d < PRESETS ==> Total(mask, p, d + 1) > MAX_HOPS
    ensures Total(mask, p, bit) <= MAX_HOPS ==> Total(mask, p, d) <= MAX_HOPS
    decreases |p| - bit
  {
    if bit == PRESETS || Total(mask, p, bit + 1) > MAX_HOPS then bit else Stop(mask, p, bit + 1)
  }

  /** The configured slots of a selection from `bit` up to d. */
  function Slots(mask: set<nat>, p: seq<string>, bit: nat, d: nat): set<nat>
    requires IsPresets(p) && d <= PRESETS
  {
    set k | k in mask && bit <= k < d && p[k] != ""
  }

  lemma HopsOfSlot(mask: set<nat>, p: seq<string>, bit: nat)
    requires IsPresets(p) && bit < PRESETS
    ensures Hops(p[bit]) == 0 <==> p[bit] == ""
    ensures Total(mask, p, bit + 1) == Total(mask, p, bit) + if bit in mask then Hops(p[bit]) else 0
  {
  }

  lemma SlotsFrom(mask: set<nat>, p: seq<string>, bit: nat, d: nat)
    requires IsPresets(p) && bit <= d <= PRESETS
    ensures Slots(mask, p, bit, d)
         == if bit == d then {}
            else (if bit in mask && p[bit] != "" then {bit} else {}) + Slots(mask, p, bit + 1, d)
  {
  }

  /** What is kept is the longest low-bit-first part of the selection that fits. */
  lemma {:induction false} KeepIsPrefix(mask: set<nat>, p: seq<string>, bit: nat)
    requires IsPresets(p) && bit <= PRESETS && Total(mask, p, bit) <= MAX_HOPS
    ensures Keep(mask, p, bit, Total(mask, p, bit)) == Slots(mask, p, bit, Stop(mask, p, bit))
    decreases |p| - bit
  {
    hide Hops, Slots;
    SlotsFrom(mask, p, bit, Stop(mask, p, bit));
    if bit < PRESETS {
      HopsOfSlot(mask, p, bit);
      if Total(mask, p, bit + 1) <= MAX_HOPS {
        KeepIsPrefix(mask, p, bit + 1);
      }
    }
  }

  lemma {:induction false} SlotsTotal(mask: set<nat>, p: seq<string>, d: nat, n: nat)
    requires IsPresets(p) && d <= PRESETS && n <= PRESETS
    ensures Total(Slots(mask, p, 0, d), p, n) == Total(mask, p, if n < d then n else d)
  {
    if n > 0 {
      SlotsTotal(mask, p, d, n - 1);
    }
  }

  lemma TotalBounded(mask: set<nat>, p: seq<string>)
    requires IsPresets(p)
    ensures Total(mask, p, PRESETS) <= 288
  {
    assert forall b :: 0 <= b < PRESETS ==> Hops(p[b]) <= 72;
    assert Total(mask, p, 1) <= 72;
    assert Total(mask, p, 2) <= 144;
    assert Total(mask, p, 3) <= 216;
  }

  /** The clamp keeps a selection within eight hops unless the byte count has wrapped:
      exactly when the true count is not between 256 and 264. */
  lemma ClampWithinBudgetIff(mask: set<nat>, p: seq<string>)
    requires IsPresets(p)
    ensures Total(Clamped(mask, p), p, PRESETS) <= MAX_HOPS <==> !(256 <= Total(mask, p, PRESETS) <= 264)
    ensures Clamped(mask, p) <= mask
    ensures Total(mask, p, PRESETS) <= MAX_HOPS ==> Clamped(mask, p) == mask
  {
    TotalBounded(mask, p);
    KeepIsPrefix(mask, p, 0);
    SlotsTotal(mask, p, Stop(mask, p, 0), PRESETS);
  }

  function Commas63(): (s: string)
    ensures |s| == 63 && Commas(s) == 63
  {
    AllCommas(63);
    seq(63, _ => ',')
  }

  lemma {:induction false} AllCommas(n: nat)
    ensures Commas(seq(n, _ => ',')) == n
  {
    if n > 0 {
      assert seq(n, _ => ',')[..n - 1] == seq(n - 1, _ => ',');
      AllCommas(n - 1);
    }
  }

  /** Four presets of 64 hops each count as none and are all kept. */
  lemma WrapKeepsAll()
    ensures var p := [Commas63(), Commas63(), Commas63(), Commas63()];
            IsPresets(p) && Clamped({0, 1, 2, 3}, p) == {0, 1, 2, 3} && Total({0, 1, 2, 3}, p, PRESETS) == 256
  {
    var p := [Commas63(), Commas63(), Commas63(), Commas63()];
    assert Total({0, 1, 2, 3}, p, 1) == 64;
    assert Total({0, 1, 2, 3}, p, 2) == 128;
    assert Total({0, 1, 2, 3}, p, 3) == 192;
  }

  // ---- Building the suffix ----

  /** The text for the slots from `bit` on, and whether all of them made it. */
  function Suffix(mask: set<nat>, p: seq<string>, bit: nat, used: nat): (string, bool)
    requires IsPresets(p) && bit <= PRESETS
    decreases |p| - bit
  {
    if bit == PRESETS then ("", true)
    else if bit !in mask || p[bit] == "" then Suffix(mask, p, bit + 1, used)
    else if used + Hops(p[bit]) > MAX_HOPS then ("", false)
    else
      var (rest, whole) := Suffix(mask, p, bit + 1, used + Hops(p[bit]));
      ("," + p[bit] + rest, whole)
  }

  function CutTo(s: string, size: nat): string {
    if |s| <= size then s else s[..size]
  }

  method BuildSuffix(mask: set<nat>, p: seq<string>, outMax: nat) returns (out: string, whole: bool)
    requires IsPresets(p)
    ensures outMax > 0 ==> out == CutTo(Suffix(mask, p, 0, 0).0, outMax - 1)
    ensures whole <==> outMax > 0 && Suffix(mask, p, 0, 0).1 && |Suffix(mask, p, 0, 0).0| <= outMax - 1
  {
    out := "";
    if outMax == 0 {
      return out, false;
    }
    var used: nat := 0;
    ghost var all := Suffix(mask, p, 0, used);
    assert "" + all.0 == all.0;
    for bit := 0 to PRESETS
      invariant |out| <= outMax - 1
      invariant all.0 == out + Suffix(mask, p, bit, used).0 && all.1 == Suffix(mask, p, bit, used).1
    {
      if bit in mask && p[bit] != "" {
        var h := PresetHops(p[bit]);
        if used + h > MAX_HOPS {
          return out, false;
        }
        ghost var rest := Suffix(mask, p, bit + 1, used + h).0;
        var text := out + "," + p[bit];
        assert out + ("," + p[bit] + rest) == text + rest;
        if |text| > outMax - 1 {
          assert (text + rest)[..outMax - 1] == text[..outMax - 1];
          return text[..outMax - 1], false;
        }
        out := text;
        used := used + h;
      }
    }
    return out, true;
  }

  lemma {:induction false} CommasAppend(a: string, b: string)
    ensures Commas(a + b) == Commas(a) + Commas(b)
  {
    if b == "" {
      assert a + b == a;
    } else {
      assert (a + b)[..|a + b| - 1] == a + b[..|b| - 1];
      CommasAppend(a, b[..|b| - 1]);
    }
  }

  lemma CommasJoin(preset: string, rest: string)
    ensures Commas("," + preset + rest) == 1 + Commas(preset) + Commas(rest)
  {
    CommasAppend("," + preset, rest);
    CommasAppend(",", preset);
    assert ","[..0] == "";
  }

  lemma SuffixCommas(mask: set<nat>, p: seq<string>, bit: nat, used: nat)
    requires IsPresets(p) && bit < PRESETS && bit in mask && p[bit] != "" && used + Hops(p[bit]) <= MAX_HOPS
    ensures Commas(Suffix(mask, p, bit, used).0)
         == Hops(p[bit]) + Commas(Suffix(mask, p, bit + 1, used + Hops(p[bit])).0)
  {
    CommasJoin(p[bit], Suffix(mask, p, bit + 1, used + Hops(p[bit])).0);
  }

  /** Whatever is selected, wrapped count or not, no more than eight vias go out. */
  lemma {:induction false} SuffixWithinLimit(mask: set<nat>, p: seq<string>, bit: nat, used: nat)
    requires IsPresets(p) && bit <= PRESETS && used <= MAX_HOPS
    ensures used + Commas(Suffix(mask, p, bit, used).0) <= MAX_HOPS
    decreases |p| - bit
  {
    if bit < PRESETS {
      if bit !in mask || p[bit] == "" {
        SuffixWithinLimit(mask, p, bit + 1, used);
      } else if used + Hops(p[bit]) <= MAX_HOPS {
        SuffixWithinLimit(mask, p, bit + 1, used + Hops(p[bit]));
        SuffixCommas(mask, p, bit, used);
      }
    }
  }

  /** The text is that of the slots before the stop, and whole when there is none. */
  lemma {:induction false} SuffixStops(mask: set<nat>, kept: set<nat>, p: seq<string>, bit: nat)
    requires IsPresets(p) && bit <= PRESETS && Total(mask, p, bit) <= MAX_HOPS
    requires forall k :: bit <= k < PRESETS ==> (k in kept <==> k in mask && k < Stop(mask, p, bit) && p[k] != "")
    ensures Suffix(kept, p, bit, Total(mask, p, bit)) == (Suffix(mask, p, bit, Total(mask, p, bit)).0, true)
    ensures Suffix(mask, p, bit, Total(mask, p, bit)).1 <==> Stop(mask, p, bit) == PRESETS
    decreases |p| - bit
  {
    hide Hops;
    if bit < PRESETS {
      HopsOfSlot(mask, p, bit);
      if Total(mask, p, bit + 1) <= MAX_HOPS {
        SuffixStops(mask, kept, p, bit + 1);
      } else {
        NothingLeft(kept, p, bit, Total(mask, p, bit));
      }
    }
  }

  lemma {:induction false} NothingLeft(kept: set<nat>, p: seq<string>, bit: nat, used: nat)
    requires IsPresets(p) && bit <= PRESETS && forall k :: bit <= k < PRESETS ==> k !in kept
    ensures Suffix(kept, p, bit, used) == ("", true)
    decreases |p| - bit
  {
    if bit < PRESETS {
      NothingLeft(kept, p, bit + 1, used);
    }
  }

  lemma {:induction false} TotalGrows(mask: set<nat>, p: seq<string>, a: nat, b: nat)
    requires IsPresets(p) && a <= b <= PRESETS
    ensures Total(mask, p, a) <= Total(mask, p, b)
  {
    if a < b {
      TotalGrows(mask, p, a, b - 1);
    }
  }

  /** Saving through the clamp never changes what goes on the air: the saved selection
      gives the text the original selection would have given, and - the wrapped counts
      aside - gives it whole. */
  lemma ClampKeepsPath(mask: set<nat>, p: seq<string>)
    requires IsPresets(p)
    ensures Suffix(Clamped(mask, p), p, 0, 0).0 == Suffix(mask, p, 0, 0).0
    ensures Suffix(Clamped(mask, p), p, 0, 0).1 <==> !(256 <= Total(mask, p, PRESETS) <= 264)
  {
    TotalBounded(mask, p);
    var d := Stop(mask, p, 0);
    var kept := Slots(mask, p, 0, d);
    SuffixStops(mask, kept, p, 0);
    KeepIsPrefix(mask, p, 0);
    if d < PRESETS {
      TotalGrows(mask, p, d + 1, PRESETS);
    }
  }
}
