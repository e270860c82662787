/** The light brightness tile control: a slider showing a light's brightness
    (0..255) as a percentage position, and requesting `light.turn_on` with the
    chosen percentage. */
module LightBrightnessTile {
  import opened ConfigValues

  /** The entity state string `UNAVAILABLE`. */
  const Unavailable: string := "unavailable"

  /** The part of the light's state object the control reads. */
  datatype EntityState = EntityState(entityId: string, state: string, brightness: Option<int>)

  /** What `render` shows: the slider's position (none when unknown) and whether it is disabled. */
  datatype Slider = Slider(position: Option<int>, disabled: bool)

  /** The arguments of one `hass.callService` request; `data` holds `entity_id` and `brightness_pct`. */
  datatype ServiceCall = ServiceCall(domain: string, service: string, entityId: string, brightnessPct: int)

  /** `getStubConfig`: the configuration whose only field is its type. */
  function StubConfig(): (c: Config)
    ensures c.Keys == {"type"} && c["type"] == Str("light-brightness")
  {
    map["type" := Str("light-brightness")]
  }

  /** `Math.round`: the nearest integer, halves rounded up. */
  function JsRound(x: real): (n: int)
    ensures n as real - 0.5 <= x < n as real + 0.5
  {
    (x + 0.5).Floor
  }

  /** The slider position for a brightness: `max(round(brightness * 100 / 255), 1)`. */
  function Position(brightness: int): (p: int)
    ensures p >= 1
    ensures brightness <= 255 ==> p <= 100
  {
    var rounded := JsRound(brightness as real * 100.0 / 255.0);
    if rounded < 1 then 1 else rounded
  }

  /** `render`: nothing without a configuration, `hass` or a state object;
      otherwise the slider at the brightness's position, disabled exactly when
      the light is unavailable. */
  function Render(config: Option<Config>, hass: bool, stateObj: Option<EntityState>): (r: Option<Slider>)
    ensures r.Some? <==> config.Some? && hass && stateObj.Some?
    ensures r.Some? ==> (r.value.disabled <==> stateObj.value.state == Unavailable)
    ensures r.Some? ==> (r.value.position.None? <==> stateObj.value.brightness.None?)
    ensures r.Some? && r.value.position.Some? ==>
      var b := stateObj.value.brightness.value;
      && r.value.position.value >= 1
      && (0 <= b <= 255 ==> r.value.position.value <= 100)
    ensures r.Some? && stateObj.value.brightness.Some? ==>
      r.value.position == Some(Position(stateObj.value.brightness.value))
  {
    if config.None? || !hass || stateObj.None? then None
    else
      var entity := stateObj.value;
      var position := if entity.brightness.Some? then Some(Position(entity.brightness.value)) else None;
      Some(Slider(position, entity.state == Unavailable))
  }

  /** With integer brightness, `round(b * 100 / 255)` is the integer division `(200 * b + 255) / 510`. */
  lemma {:induction false} RoundedPercentIsIntegerDivision(b: int)
    ensures JsRound(b as real * 100.0 / 255.0) == (200 * b + 255) / 510
  {
    var n := 200 * b + 255;
    var q, r := n / 510, n % 510;
    assert n == 510 * q + r;
    assert b as real * 100.0 / 255.0 + 0.5 == q as real + r as real / 510.0;
  }

  /** The position computed with integers only: `max((200 * b + 255) / 510, 1)`. */
  lemma PositionIsIntegerFormula(b: int)
    ensures Position(b) == if (200 * b + 255) / 510 < 1 then 1 else (200 * b + 255) / 510
  {
    RoundedPercentIsIntegerDivision(b);
  }

  /** No integer brightness lies exactly halfway between two percentages, so
      the direction in which halves are rounded never matters. */
  lemma NoHalfwayBrightness(b: int, n: int)
    ensures b as real * 100.0 / 255.0 != n as real + 0.5
  {
  }

  /** Every integer brightness's exact percentage lies at least 1/510 away from
      the nearest rounding boundary `n + 0.5`. */
  lemma {:induction false} RoundingMargin(b: int, n: int)
    ensures var d := b as real * 100.0 / 255.0 - (n as real + 0.5);
      d >= 1.0 / 510.0 || d <= -1.0 / 510.0
  {
    var k := 200 * b - 510 * n - 255;
    assert b as real * 100.0 / 255.0 - (n as real + 0.5) == k as real / 510.0;
    assert k == 2 * (100 * b - 255 * n - 128) + 1;
  }

  /** Full brightness is the top of the slider, zero brightness its bottom. */
  lemma PositionEndpoints()
    ensures Position(255) == 100
    ensures Position(0) == 1
  {
    RoundedPercentIsIntegerDivision(255);
    RoundedPercentIsIntegerDivision(0);
  }

  /** The position never decreases as the brightness grows. */
  lemma {:induction false} PositionIsMonotonic(b1: int, b2: int)
    requires b1 <= b2
    ensures Position(b1) <= Position(b2)
  {
    RoundedPercentIsIntegerDivision(b1);
    RoundedPercentIsIntegerDivision(b2);
    var x, y := 200 * b1 + 255, 200 * b2 + 255;
    assert x == 510 * (x / 510) + x % 510 && y == 510 * (y / 510) + y % 510;
  }

  /** The `hui-light-brightness-tile-control` element. */
  class LightBrightnessTileControl {
    /** Whether the host has provided `hass`. */
    var hass: bool
    var stateObj: Option<EntityState>
    var config: Option<Config>
    /** The service calls requested so far, oldest first. */
    var calls: seq<ServiceCall>

    constructor ()
      ensures !hass && stateObj.None? && config.None? && calls == []
    {
      hass := false;
      stateObj := None;
      config := None;
      calls := [];
    }

    /** `setConfig`: a missing configuration throws "Invalid configuration" and
        changes nothing; any other is stored unchanged. */
    method SetConfig(c: Option<Config>) returns (outcome: Outcome)
      modifies this`config
      ensures c.None? ==> outcome == Threw(Error("Invalid configuration")) && config == old(config)
      ensures c.Some? ==> outcome == Completed && config == c
    {
      if c.None? {
        outcome := Threw(Error("Invalid configuration"));
        return;
      }
      config := c;
      outcome := Completed;
    }

    /** `_valueChanged`: requests `light.turn_on` for this light with the
        slider's value as `brightness_pct`; without `hass` or a state object the
        property read throws and nothing is requested. */
    method ValueChanged(value: int) returns (outcome: Outcome)
      modifies this`calls
      ensures !hass || stateObj.None? ==> outcome == Threw(TypeError) && calls == old(calls)
      ensures hass && stateObj.Some? ==>
        && outcome == Completed
        && calls == old(calls) + [ServiceCall("light", "turn_on", stateObj.value.entityId, value)]
    {
      if !hass || stateObj.None? {
        outcome := Threw(TypeError);
        return;
      }
      calls := calls + [ServiceCall("light", "turn_on", stateObj.value.entityId, value)];
      outcome := Completed;
    }
  }
}
