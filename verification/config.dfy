/** The three file-name patterns of the broadside configuration, as Python's
    `re` reads them:

      re_dark_timestamps  dark-(?P<ts>[0-9]+).ome.tif{1,2}
      re_filter           ^Filter:(?P<cube>[A-Za-z0-9-+_]+)-Emission$
      re_wavelength       ^Filter:(?P<wavelength>[0-9]+)nm-(?P<bandwidth>10|20)nm-Emission$

    Each pattern has a ghost predicate that spells out which strings (and
    which captures) its structure admits, and a function that computes the
    captures; the function's contract ties the two together. `[0-9]` is the
    ASCII digits only, `.` is any character but a newline, and in
    `[A-Za-z0-9-+_]` the `-` after the range `0-9` is a literal. */
module Config {
  import opened Results

  predicate IsDigit(c: char)
  {
    '0' <= c <= '9'
  }

  /** A member of the class `[A-Za-z0-9-+_]`. */
  predicate IsCubeChar(c: char)
  {
    'A' <= c <= 'Z' || 'a' <= c <= 'z' || IsDigit(c) || c == '-' || c == '+' || c == '_'
  }

  predicate AllDigits(s: string)
  {
    forall i :: 0 <= i < |s| ==> IsDigit(s[i])
  }

  predicate AllCubeChars(s: string)
  {
    forall i :: 0 <= i < |s| ==> IsCubeChar(s[i])
  }

  const FilterPrefix := "Filter:"
  const EmissionSuffix := "-Emission"

  // ---------------------------------------------------------------- re_filter

  /** `s` as a whole is `Filter:`, then one or more class characters (the
      `cube` capture), then `-Emission`. */
  ghost predicate FilterMatch(s: string, cube: string)
  {
    |cube| >= 1 && AllCubeChars(cube) && s == FilterPrefix + cube + EmissionSuffix
  }

  /** The `cube` capture of a whole-string `re_filter` match, or None. Both
      anchors fix the capture: it is everything between the prefix and the
      final `-Emission`, which may itself contain `-`. */
  function MatchFilter(s: string): (r: Option<string>)
    ensures forall cube :: r == Some(cube) <==> FilterMatch(s, cube)
    ensures r.Some? ==> FilterPrefix <= s && |s| >= |FilterPrefix| + |EmissionSuffix| + 1
                        && s[|s| - |EmissionSuffix|..] == EmissionSuffix
  {
    var n := |s|;
    if n >= |FilterPrefix| + 1 + |EmissionSuffix|
       && s[..|FilterPrefix|] == FilterPrefix
       && s[n - |EmissionSuffix|..] == EmissionSuffix
       && AllCubeChars(s[|FilterPrefix|..n - |EmissionSuffix|])
    then
      var cube := s[|FilterPrefix|..n - |EmissionSuffix|];
      assert s == FilterPrefix + cube + EmissionSuffix;
      FilterMatchShape(s);
      Some(cube)
    else
      FilterMatchShape(s);
      None
  }

  /** Whatever `FilterMatch` admits has the prefix, suffix and middle that
      `MatchFilter` checks. */
  lemma FilterMatchShape(s: string)
    ensures forall cube :: FilterMatch(s, cube) ==>
              |s| == |FilterPrefix| + |cube| + |EmissionSuffix|
              && s[..|FilterPrefix|] == FilterPrefix
              && s[|FilterPrefix|..|s| - |EmissionSuffix|] == cube
              && s[|s| - |EmissionSuffix|..] == EmissionSuffix
  {
    forall cube | FilterMatch(s, cube)
      ensures s[..|FilterPrefix|] == FilterPrefix
      ensures s[|FilterPrefix|..|s| - |EmissionSuffix|] == cube
      ensures s[|s| - |EmissionSuffix|..] == EmissionSuffix
    {
      assert s == FilterPrefix + cube + EmissionSuffix;
    }
  }

  // ------------------------------------------------------------ re_wavelength

  const NmDash := "nm-"
  const NmEmission := "nm-Emission"

  /** The two captures of `re_wavelength`. */
  datatype WavelengthCaptures = WavelengthCaptures(wavelength: string, bandwidth: string)

  /** `s` as a whole is `Filter:`, one or more digits (`wavelength`), `nm-`,
      `10` or `20` (`bandwidth`), then `nm-Emission`. */
  ghost predicate WavelengthMatch(s: string, wavelength: string, bandwidth: string)
  {
    && |wavelength| >= 1 && AllDigits(wavelength)
    && (bandwidth == "10" || bandwidth == "20")
    && s == FilterPrefix + wavelength + NmDash + bandwidth + NmEmission
  }

  /** The captures of a whole-string `re_wavelength` match, or None. The
      bandwidth and the text after it have a fixed length, so the wavelength
      is what lies between the prefix and them. */
  function MatchWavelength(s: string): (r: Option<WavelengthCaptures>)
    ensures forall w, b :: r == Some(WavelengthCaptures(w, b)) <==> WavelengthMatch(s, w, b)
  {
    var n := |s|;
    var tail := |NmDash| + 2 + |NmEmission|;
    WavelengthMatchShape(s);
    if n >= |FilterPrefix| + 1 + tail
       && s[..|FilterPrefix|] == FilterPrefix
       && AllDigits(s[|FilterPrefix|..n - tail])
       && s[n - tail..n - tail + |NmDash|] == NmDash
       && (s[n - |NmEmission| - 2..n - |NmEmission|] == "10" || s[n - |NmEmission| - 2..n - |NmEmission|] == "20")
       && s[n - |NmEmission|..] == NmEmission
    then
      var w, b := s[|FilterPrefix|..n - tail], s[n - |NmEmission| - 2..n - |NmEmission|];
      assert s == FilterPrefix + w + NmDash + b + NmEmission;
      Some(WavelengthCaptures(w, b))
    else
      None
  }

  /** Whatever `WavelengthMatch` admits has the pieces `MatchWavelength`
      checks, at the positions it checks them. */
  lemma WavelengthMatchShape(s: string)
    ensures forall w, b :: WavelengthMatch(s, w, b) ==>
              var n, tail := |s|, |NmDash| + 2 + |NmEmission|;
              && n == |FilterPrefix| + |w| + tail
              && s[..|FilterPrefix|] == FilterPrefix
              && s[|FilterPrefix|..n - tail] == w
              && s[n - tail..n - tail + |NmDash|] == NmDash
              && s[n - |NmEmission| - 2..n - |NmEmission|] == b
              && s[n - |NmEmission|..] == NmEmission
  {
    forall w, b | WavelengthMatch(s, w, b)
      ensures var n, tail := |s|, |NmDash| + 2 + |NmEmission|;
              && s[..|FilterPrefix|] == FilterPrefix
              && s[|FilterPrefix|..n - tail] == w
              && s[n - tail..n - tail + |NmDash|] == NmDash
              && s[n - |NmEmission| - 2..n - |NmEmission|] == b
              && s[n - |NmEmission|..] == NmEmission
    {
      assert s == FilterPrefix + w + NmDash + b + NmEmission;
    }
  }

  /** Every name `re_wavelength` accepts, `re_filter` accepts too: its cube is
      the wavelength and bandwidth with their units, `<w>nm-<b>nm`. */
  lemma WavelengthIsFilter(s: string)
    requires MatchWavelength(s).Some?
    ensures var c := MatchWavelength(s).value;
            MatchFilter(s) == Some(c.wavelength + NmDash + c.bandwidth + "nm")
  {
    var c := MatchWavelength(s).value;
    var cube := c.wavelength + NmDash + c.bandwidth + "nm";
    assert WavelengthMatch(s, c.wavelength, c.bandwidth);
    assert s == FilterPrefix + cube + EmissionSuffix;
    forall i | 0 <= i < |cube| ensures IsCubeChar(cube[i]) {
      if i < |c.wavelength| {
        assert cube[i] == c.wavelength[i];
      }
    }
    assert FilterMatch(s, cube);
  }

  // ------------------------------------------------------- re_dark_timestamps

  const DarkPrefix := "dark-"

  /** The captures of a `re_dark_timestamps` match: the timestamp and the
      index just past the matched text. */
  datatype DarkCaptures = DarkCaptures(ts: string, end: nat)

  /** `.ome.tif{1,2}` read from index `q` on, ending at index `e`: any
      non-newline character, `ome`, any non-newline character, `ti`, then one
      or two `f`. */
  ghost predicate DarkTail(s: string, q: nat, e: nat)
  {
    && q + 8 <= |s|
    && s[q] != '\n' && s[q + 1..q + 4] == "ome" && s[q + 4] != '\n'
    && s[q + 5..q + 7] == "ti" && s[q + 7] == 'f'
    && (e == q + 8 || (e == q + 9 && q + 9 <= |s| && s[q + 8] == 'f'))
  }

  /** The pattern matches `s` from index `p` to index `e` with `ts` captured:
      `dark-`, then `ts` (one or more digits), then the tail. */
  ghost predicate DarkMatch(s: string, p: nat, ts: string, e: nat)
  {
    && p + |DarkPrefix| + |ts| <= |s|
    && s[p..p + |DarkPrefix|] == DarkPrefix
    && |ts| >= 1 && AllDigits(ts)
    && s[p + |DarkPrefix|..p + |DarkPrefix| + |ts|] == ts
    && DarkTail(s, p + |DarkPrefix| + |ts|, e)
  }

  /** The length of the run of digits starting at index `i`. */
  function DigitRun(s: string, i: nat): (n: nat)
    requires i <= |s|
    ensures i + n <= |s|
    ensures forall k :: i <= k < i + n ==> IsDigit(s[k])
    ensures i + n < |s| ==> !IsDigit(s[i + n])
    decreases |s| - i
  {
    if i < |s| && IsDigit(s[i]) then 1 + DigitRun(s, i + 1) else 0
  }

  /** Where the tail read from `q` ends, taking the second `f` when there is
      one (the `{1,2}` is greedy), or None when the tail does not match. */
  function TailEnd(s: string, q: nat): (r: Option<nat>)
    ensures r.Some? ==> DarkTail(s, q, r.value)
    ensures forall e: nat :: DarkTail(s, q, e) ==> r.Some? && e <= r.value
  {
    if && q + 8 <= |s|
       && s[q] != '\n' && s[q + 1..q + 4] == "ome" && s[q + 4] != '\n'
       && s[q + 5..q + 7] == "ti" && s[q + 7] == 'f'
    then
      if q + 9 <= |s| && s[q + 8] == 'f' then Some(q + 9) else Some(q + 8)
    else
      None
  }

  /** Backtracking over the digit run: the timestamp takes `k` digits if the
      tail then matches, else `k - 1`, and so on down to one digit. */
  function TryDigits(s: string, p: nat, k: nat): (r: Option<DarkCaptures>)
    requires p + |DarkPrefix| + k <= |s| && s[p..p + |DarkPrefix|] == DarkPrefix
    requires forall i :: p + |DarkPrefix| <= i < p + |DarkPrefix| + k ==> IsDigit(s[i])
    ensures r.Some? ==> DarkMatch(s, p, r.value.ts, r.value.end) && |r.value.ts| <= k
    ensures forall ts, e: nat :: DarkMatch(s, p, ts, e) && |ts| <= k ==>
              r.Some? && (|ts| < |r.value.ts| || (|ts| == |r.value.ts| && e <= r.value.end))
    decreases k
  {
    if k == 0 then None
    else
      var start := p + |DarkPrefix|;
      var ts := s[start..start + k];
      assert forall i :: 0 <= i < k ==> ts[i] == s[start + i];
      match TailEnd(s, start + k)
      case Some(e) => Some(DarkCaptures(ts, e))
      case None => TryDigits(s, p, k - 1)
  }

  /** `re_dark_timestamps` matched at index `p` of `s` (the pattern is not
      anchored at either end): the captures of the match Python's
      backtracking finds, or None. */
  function MatchDarkAt(s: string, p: nat): (r: Option<DarkCaptures>)
    requires p <= |s|
    ensures r.Some? ==> DarkMatch(s, p, r.value.ts, r.value.end)
    ensures r.None? <==> forall ts, e: nat :: !DarkMatch(s, p, ts, e)
    // the longest timestamp that lets the rest match, then the longer ending
    ensures r.Some? ==> forall ts, e: nat :: DarkMatch(s, p, ts, e) ==>
              |ts| < |r.value.ts| || (|ts| == |r.value.ts| && e <= r.value.end)
  {
    if p + |DarkPrefix| <= |s| && s[p..p + |DarkPrefix|] == DarkPrefix then
      var start := p + |DarkPrefix|;
      var run := DigitRun(s, start);
      DigitsBounded(s, p, run);
      TryDigits(s, p, run)
    else
      None
  }

  /** No timestamp is longer than the digit run after `dark-`. */
  lemma DigitsBounded(s: string, p: nat, run: nat)
    requires p + |DarkPrefix| + run <= |s|
    requires p + |DarkPrefix| + run < |s| ==> !IsDigit(s[p + |DarkPrefix| + run])
    ensures forall ts, e: nat :: DarkMatch(s, p, ts, e) ==> |ts| <= run
  {
    forall ts, e: nat | DarkMatch(s, p, ts, e) ensures |ts| <= run {
      if |ts| > run {
        assert false;
      }
    }
  }
}
