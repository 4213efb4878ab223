/**
 * The physical scaling of a scan, read from the `<Setting>` elements of a
 * microscope's ScanInfo.xml: the z-step and the pixel sizes in y and x, in
 * micrometres. The XML parser and Python's `float` are not modelled: the
 * settings arrive as a sequence and `float` is a parameter `parse`.
 */
module ScanInfo {
  import opened Wrappers

  const ZStackSpacingMicrons := "ZStackSpacingMicrons"
  const MicronsPerPixelY := "MicronsPerPixelY"
  const MicronsPerPixelX := "MicronsPerPixelX"

  /** One `<Setting>` element: its `Parameter` attribute and its text, either possibly absent. */
  datatype Setting = Setting(parameter: Option<string>, text: Option<string>)

  /** The `(z, y, x)` tuple the reader returns; a value not found is `None`. */
  datatype Scaling<V> = Scaling(z: Option<V>, y: Option<V>, x: Option<V>)

  /** What `float(setting.text)` raises: a `TypeError` on a missing text, a `ValueError` on a non-number. */
  datatype ScanError = MissingText(parameter: string) | NotANumber(parameter: string, text: string)

  predicate IsScalingParameter(p: string) {
    p == ZStackSpacingMicrons || p == MicronsPerPixelY || p == MicronsPerPixelX
  }

  /** A setting the reader acts on. */
  predicate Recognised(st: Setting) {
    st.parameter.Some? && IsScalingParameter(st.parameter.value)
  }

  /** `float(setting.text)` for a setting named `p`. */
  function Convert<V>(p: string, st: Setting, parse: string -> Option<V>): (r: Result<V, ScanError>)
    ensures r.Ok? <==> st.text.Some? && parse(st.text.value).Some?
    ensures st.text.None? ==> r == Err(MissingText(p))
    ensures st.text.Some? && parse(st.text.value).None? ==> r == Err(NotANumber(p, st.text.value))
    ensures r.Ok? ==> r.value == parse(st.text.value).value
  {
    match st.text
    case None => Err(MissingText(p))
    case Some(t) =>
      match parse(t)
      case None => Err(NotANumber(p, t))
      case Some(v) => Ok(v)
  }

  /** A recognised setting whose text does not convert. */
  predicate Fails<V>(st: Setting, parse: string -> Option<V>) {
    Recognised(st) && Convert(st.parameter.value, st, parse).Err?
  }

  /** The error of the first recognised setting whose text does not convert. */
  function FirstFailure<V>(settings: seq<Setting>, parse: string -> Option<V>): Option<ScanError> {
    if settings == [] then None
    else if Fails(settings[0], parse) then Some(Convert(settings[0].parameter.value, settings[0], parse).error)
    else FirstFailure(settings[1..], parse)
  }

  /** The converted text of the last setting named `p`, if any. */
  function LastValue<V>(settings: seq<Setting>, p: string, parse: string -> Option<V>): Option<V> {
    if settings == [] then None
    else
      var last := settings[|settings| - 1];
      if last.parameter == Some(p) then
        match Convert(p, last, parse)
        case Ok(v) => Some(v)
        case Err(_) => None
      else LastValue(settings[..|settings| - 1], p, parse)
  }

  /**
   * What `gather_scaling_info_from_scaninfoxml` returns for the settings in
   * document order: the first conversion error, or for each of the three
   * parameters the value of its last setting.
   */
  function ScanInfoScaling<V>(settings: seq<Setting>, parse: string -> Option<V>): Result<Scaling<V>, ScanError> {
    match FirstFailure(settings, parse)
    case Some(e) => Err(e)
    case None =>
      Ok(Scaling(LastValue(settings, ZStackSpacingMicrons, parse),
                 LastValue(settings, MicronsPerPixelY, parse),
                 LastValue(settings, MicronsPerPixelX, parse)))
  }

  /** The component of a scaling that parameter `p` sets. */
  function Component<V>(sc: Scaling<V>, p: string): Option<V>
    requires IsScalingParameter(p)
  {
    if p == ZStackSpacingMicrons then sc.z
    else if p == MicronsPerPixelY then sc.y
    else sc.x
  }

  lemma {:induction false} FirstFailureAppend<V>(a: seq<Setting>, st: Setting, parse: string -> Option<V>)
    ensures FirstFailure(a + [st], parse) ==
      if FirstFailure(a, parse).Some? then FirstFailure(a, parse)
      else if Fails(st, parse) then Some(Convert(st.parameter.value, st, parse).error)
      else None
  {
    if a == [] {
      assert [st][1..] == [];
    } else {
      assert (a + [st])[1..] == a[1..] + [st];
      FirstFailureAppend(a[1..], st, parse);
    }
  }

  lemma {:induction false} FirstFailurePrefix<V>(a: seq<Setting>, b: seq<Setting>, parse: string -> Option<V>)
    requires FirstFailure(a, parse).Some?
    ensures FirstFailure(a + b, parse) == FirstFailure(a, parse)
  {
    if !Fails(a[0], parse) {
      assert (a + b)[1..] == a[1..] + b;
      FirstFailurePrefix(a[1..], b, parse);
    }
  }

  lemma LastValueAppend<V>(a: seq<Setting>, st: Setting, p: string, parse: string -> Option<V>)
    ensures LastValue(a + [st], p, parse) ==
      if st.parameter != Some(p) then LastValue(a, p, parse)
      else if Convert(p, st, parse).Ok? then Some(Convert(p, st, parse).value)
      else None
  {
    assert (a + [st])[..|a|] == a;
  }

  /** `gather_scaling_info_from_scaninfoxml`: one pass over the settings, later values overwriting earlier ones. */
  method GatherScalingInfo<V>(settings: seq<Setting>, parse: string -> Option<V>) returns (r: Result<Scaling<V>, ScanError>)
    ensures r == ScanInfoScaling(settings, parse)
  {
    var y: Option<V> := None;
    var x: Option<V> := None;
    var z: Option<V> := None;
    var i := 0;
    while i < |settings|
      invariant 0 <= i <= |settings|
      invariant FirstFailure(settings[..i], parse).None?
      invariant z == LastValue(settings[..i], ZStackSpacingMicrons, parse)
      invariant y == LastValue(settings[..i], MicronsPerPixelY, parse)
      invariant x == LastValue(settings[..i], MicronsPerPixelX, parse)
    {
      var st := settings[i];
      assert settings[..i + 1] == settings[..i] + [st];
      FirstFailureAppend(settings[..i], st, parse);
      LastValueAppend(settings[..i], st, ZStackSpacingMicrons, parse);
      LastValueAppend(settings[..i], st, MicronsPerPixelY, parse);
      LastValueAppend(settings[..i], st, MicronsPerPixelX, parse);
      if st.parameter == Some(MicronsPerPixelY) || st.parameter == Some(MicronsPerPixelX)
        || st.parameter == Some(ZStackSpacingMicrons)
      {
        var p := st.parameter.value;
        var converted := Convert(p, st, parse);
        if converted.Err? {
          FirstFailurePrefix(settings[..i + 1], settings[i + 1..], parse);
          assert settings[..i + 1] + settings[i + 1..] == settings;
          return Err(converted.error);
        }
        if p == MicronsPerPixelY {
          y := Some(converted.value);
        } else if p == MicronsPerPixelX {
          x := Some(converted.value);
        } else {
          z := Some(converted.value);
        }
      }
      i := i + 1;
    }
    assert settings[..i] == settings;
    return Ok(Scaling(z, y, x));
  }

  /** The reader fails exactly when some recognised setting does not convert, and then with the first such error. */
  lemma {:induction false} ScanInfoFailsOnFirstBadSetting<V>(settings: seq<Setting>, parse: string -> Option<V>)
    ensures ScanInfoScaling(settings, parse).Ok? <==> forall k | 0 <= k < |settings| :: !Fails(settings[k], parse)
    ensures ScanInfoScaling(settings, parse).Err? ==>
      exists k | 0 <= k < |settings| ::
        Fails(settings[k], parse)
        && ScanInfoScaling(settings, parse).error == Convert(settings[k].parameter.value, settings[k], parse).error
        && forall j | 0 <= j < k :: !Fails(settings[j], parse)
  {
    NoFailureIff(settings, parse);
    if FirstFailure(settings, parse).Some? {
      var k := FirstFailureIndex(settings, parse);
    }
  }

  lemma {:induction false} NoFailureIff<V>(settings: seq<Setting>, parse: string -> Option<V>)
    ensures FirstFailure(settings, parse).None? <==> forall k | 0 <= k < |settings| :: !Fails(settings[k], parse)
  {
    if settings != [] {
      NoFailureIff(settings[1..], parse);
      assert forall k | 1 <= k < |settings| :: settings[k] == settings[1..][k - 1];
    }
  }

  lemma {:induction false} FirstFailureIndex<V>(settings: seq<Setting>, parse: string -> Option<V>) returns (k: nat)
    requires FirstFailure(settings, parse).Some?
    ensures k < |settings| && Fails(settings[k], parse)
    ensures FirstFailure(settings, parse) == Some(Convert(settings[k].parameter.value, settings[k], parse).error)
    ensures forall j | 0 <= j < k :: !Fails(settings[j], parse)
  {
    if Fails(settings[0], parse) {
      k := 0;
    } else {
      var k' := FirstFailureIndex(settings[1..], parse);
      k := k' + 1;
      assert forall j | 1 <= j < k :: settings[j] == settings[1..][j - 1];
    }
  }

  lemma {:induction false} LastValueIsLastSetting<V>(settings: seq<Setting>, p: string, parse: string -> Option<V>, k: nat)
    requires k < |settings| && settings[k].parameter == Some(p)
    requires forall j | k < j < |settings| :: settings[j].parameter != Some(p)
    requires Convert(p, settings[k], parse).Ok?
    ensures LastValue(settings, p, parse) == Some(Convert(p, settings[k], parse).value)
  {
    if k < |settings| - 1 {
      var init := settings[..|settings| - 1];
      assert forall j | k < j < |init| :: init[j] == settings[j];
      LastValueIsLastSetting(init, p, parse, k);
    }
  }

  lemma {:induction false} LastValueAbsent<V>(settings: seq<Setting>, p: string, parse: string -> Option<V>)
    requires forall j | 0 <= j < |settings| :: settings[j].parameter != Some(p)
    ensures LastValue(settings, p, parse) == None
  {
    if settings != [] {
      var init := settings[..|settings| - 1];
      assert forall j | 0 <= j < |init| :: init[j] == settings[j];
      LastValueAbsent(init, p, parse);
    }
  }

  /** Of several settings for one parameter, the last one in document order is the value returned. */
  lemma LastSettingWins<V>(settings: seq<Setting>, parse: string -> Option<V>, k: nat)
    requires k < |settings| && Recognised(settings[k])
    requires forall j | k < j < |settings| :: settings[j].parameter != settings[k].parameter
    requires ScanInfoScaling(settings, parse).Ok?
    ensures var p := settings[k].parameter.value;
      Convert(p, settings[k], parse).Ok?
      && Component(ScanInfoScaling(settings, parse).value, p) == Some(Convert(p, settings[k], parse).value)
  {
    NoFailureIff(settings, parse);
    assert !Fails(settings[k], parse);
    LastValueIsLastSetting(settings, settings[k].parameter.value, parse, k);
  }

  /** A parameter no setting names is `None`. */
  lemma MissingSettingIsNone<V>(settings: seq<Setting>, parse: string -> Option<V>, p: string)
    requires IsScalingParameter(p)
    requires forall j | 0 <= j < |settings| :: settings[j].parameter != Some(p)
    requires ScanInfoScaling(settings, parse).Ok?
    ensures Component(ScanInfoScaling(settings, parse).value, p) == None
  {
    LastValueAbsent(settings, p, parse);
  }

  /** Settings with other parameters, or none, do not affect the result. */
  lemma {:induction false} UnrecognisedSettingIgnored<V>(a: seq<Setting>, u: Setting, b: seq<Setting>, parse: string -> Option<V>)
    requires !Recognised(u)
    ensures ScanInfoScaling(a + [u] + b, parse) == ScanInfoScaling(a + b, parse)
  {
    FirstFailureSkip(a, u, b, parse);
    LastValueSkip(a, u, b, ZStackSpacingMicrons, parse);
    LastValueSkip(a, u, b, MicronsPerPixelY, parse);
    LastValueSkip(a, u, b, MicronsPerPixelX, parse);
  }

  lemma {:induction false} FirstFailureSkip<V>(a: seq<Setting>, u: Setting, b: seq<Setting>, parse: string -> Option<V>)
    requires !Recognised(u)
    ensures FirstFailure(a + [u] + b, parse) == FirstFailure(a + b, parse)
  {
    if a == [] {
      assert a + [u] + b == [u] + b;
      assert ([u] + b)[1..] == b;
      assert a + b == b;
    } else {
      assert (a + [u] + b)[1..] == a[1..] + [u] + b;
      assert (a + b)[1..] == a[1..] + b;
      FirstFailureSkip(a[1..], u, b, parse);
    }
  }

  lemma {:induction false} LastValueSkip<V>(a: seq<Setting>, u: Setting, b: seq<Setting>, p: string, parse: string -> Option<V>)
    requires !Recognised(u) && IsScalingParameter(p)
    ensures LastValue(a + [u] + b, p, parse) == LastValue(a + b, p, parse)
  {
    if b == [] {
      assert a + [u] + b == a + [u];
      assert (a + [u])[..|a|] == a;
      assert a + b == a;
    } else {
      var b' := b[..|b| - 1];
      assert (a + [u] + b)[..|a + [u] + b| - 1] == a + [u] + b';
      assert (a + b)[..|a + b| - 1] == a + b';
      LastValueSkip(a, u, b', p, parse);
    }
  }

  /** A scan from the repository's test cases that records only the x pixel size and the z-step. */
  lemma ExampleWithoutPixelY<V>(parse: string -> Option<V>, x: V, z: V)
    requires parse("0.300") == Some(x) && parse("3.000") == Some(z)
    ensures ScanInfoScaling([Setting(Some(MicronsPerPixelX), Some("0.300")),
                             Setting(Some(ZStackSpacingMicrons), Some("3.000"))], parse)
            == Ok(Scaling(Some(z), None, Some(x)))
  {
    var settings := [Setting(Some(MicronsPerPixelX), Some("0.300")), Setting(Some(ZStackSpacingMicrons), Some("3.000"))];
    NoFailureIff(settings, parse);
    LastValueIsLastSetting(settings, MicronsPerPixelX, parse, 0);
    LastValueIsLastSetting(settings, ZStackSpacingMicrons, parse, 1);
    LastValueAbsent(settings, MicronsPerPixelY, parse);
  }
}
