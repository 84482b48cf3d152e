/**
 * The settings endpoints of server.js: one module-level settings object,
 * starting from fixed defaults, that POST /api/settings replaces by a
 * shallow merge with the request body (the object spread
 * `{ ...userSettings, ...req.body }`).
 */
module Settings {

  /** A JSON value as it can arrive in a request body. */
  datatype Value =
    | Null
    | Bool(b: bool)
    | Number(n: real)
    | Text(s: string)
    | List(items: seq<Value>)
    | Object(fields: map<string, Value>)

  type SettingsMap = map<string, Value>

  /** The settings the server starts with: every value is a flag, a number or a text, none nested. */
  function Defaults(): (r: SettingsMap)
    ensures forall k :: k in r ==> !r[k].List? && !r[k].Object? && !r[k].Null?
  {
    map[
      "defaultModel" := Text("claude-sonnet-4"),
      "defaultTemperature" := Number(0.7),
      "defaultMaxTokens" := Number(2048.0),
      "theme" := Text("dark"),
      "accentColor" := Text("#9C27B0"),
      "showTokenCount" := Bool(true),
      "autoScroll" := Bool(true),
      "soundEffects" := Bool(false),
      "enableMemory" := Bool(true),
      "enableHistory" := Bool(true),
      "anonymousAnalytics" := Bool(false)
    ]
  }

  /**
   * A shallow merge: every key of the body takes the body's value, every
   * other key keeps its current value, and no key is dropped.
   */
  function Merge(current: SettingsMap, body: SettingsMap): (r: SettingsMap)
    ensures r.Keys == current.Keys + body.Keys
    ensures forall k :: k in body ==> r[k] == body[k]
    ensures forall k :: k in current && k !in body ==> r[k] == current[k]
  {
    current + body
  }

  /** An empty body changes nothing. */
  lemma MergeEmpty(current: SettingsMap)
    ensures Merge(current, map[]) == current
  {
    assert Merge(current, map[]).Keys == current.Keys;
  }

  /** Posting the same body twice has the effect of posting it once. */
  lemma MergeIdempotent(current: SettingsMap, body: SettingsMap)
    ensures Merge(Merge(current, body), body) == Merge(current, body)
  {
  }

  /** Two posts in a row have the effect of one post of the second body merged over the first. */
  lemma MergeSequence(current: SettingsMap, first: SettingsMap, second: SettingsMap)
    ensures Merge(Merge(current, first), second) == Merge(current, Merge(first, second))
  {
    var lhs := Merge(Merge(current, first), second);
    var rhs := Merge(current, Merge(first, second));
    assert lhs.Keys == rhs.Keys;
    forall k | k in lhs.Keys ensures lhs[k] == rhs[k] {
      if k in second {
      } else if k in first {
      }
    }
  }

  /** The module-level userSettings object. */
  class SettingsStore {
    var settings: SettingsMap

    /** No default key is ever dropped: a merge only adds keys or replaces values. */
    ghost predicate Valid()
      reads this
    {
      Defaults().Keys <= settings.Keys
    }

    constructor ()
      ensures Valid()
      ensures settings == Defaults()
    {
      settings := Defaults();
    }

    /** GET /api/settings: the current settings, which still carry every default key. */
    function Current(): (r: SettingsMap)
      requires Valid()
      reads this
      ensures r == settings
      ensures Defaults().Keys <= r.Keys
    {
      settings
    }

    /** POST /api/settings: merges the body in and reports the new settings. */
    method Update(body: SettingsMap) returns (success: bool, updated: SettingsMap)
      requires Valid()
      modifies this
      ensures Valid()
      ensures settings == Merge(old(settings), body)
      ensures updated == settings
      ensures success
    {
      settings := Merge(settings, body);
      updated := settings;
      success := true;
    }
  }
}
