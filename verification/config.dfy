/**
 * The envelope.yml configuration as JavaScript sees it after YAML loading,
 * and `normalize`, which `src/validation/envelope-file.js` and
 * `src/format/normalize.js` both define with the same logic and constants:
 * the version checks, then the key whitelist, then the four-key result.
 */
module Config {
  import opened Common
  import opened Text

  /** A JavaScript value. An object lists its own properties in the order
      `Object.keys` enumerates them. Numbers are integers here. */
  datatype Value =
    | Undefined
    | Null
    | Bool(b: bool)
    | Num(n: int)
    | Str(s: string)
    | Arr(items: seq<Value>)
    | Obj(entries: seq<(string, Value)>)

  /** `!!v`. */
  predicate Truthy(v: Value)
  {
    match v
    case Undefined => false
    case Null => false
    case Bool(b) => b
    case Num(n) => n != 0
    case Str(s) => s != ""
    case Arr(_) => true
    case Obj(_) => true
  }

  /** The first own property named `key` of a list of entries. */
  function Lookup(entries: seq<(string, Value)>, key: string): (v: Value)
    ensures v != Undefined ==> exists i :: 0 <= i < |entries| && entries[i] == (key, v)
    ensures (forall i :: 0 <= i < |entries| ==> entries[i].0 != key) ==> v == Undefined
    ensures forall i :: 0 <= i < |entries| && entries[i].0 == key && NoneNamedBefore(entries, key, i) ==>
              v == entries[i].1
  {
    if |entries| == 0 then Undefined
    else if entries[0].0 == key then entries[0].1
    else Lookup(entries[1..], key)
  }

  /** No entry before index `i` is named `key`. */
  predicate NoneNamedBefore(entries: seq<(string, Value)>, key: string, i: int)
  {
    forall j :: 0 <= j < i && j < |entries| ==> entries[j].0 != key
  }

  /** `v[key]` for a non-null value: an object's own property, `undefined`
      for a missing one and for values of any other kind. */
  function Get(v: Value, key: string): Value
  {
    if v.Obj? then Lookup(v.entries, key) else Undefined
  }

  /** `Object.keys(v)` of an object; no other kind of value reaches it. */
  function Keys(v: Value): (ks: seq<string>)
    ensures v.Obj? ==> |ks| == |v.entries| && forall i :: 0 <= i < |ks| ==> ks[i] == v.entries[i].0
  {
    if v.Obj? then seq(|v.entries|, i requires 0 <= i < |v.entries| => v.entries[i].0) else []
  }

  /** `String(v)`, as a template literal or `Array.prototype.join` prints it;
      inside an array `null` and `undefined` print as "". */
  function ToJsString(v: Value): string
    decreases v
  {
    match v
    case Undefined => "undefined"
    case Null => "null"
    case Bool(b) => if b then "true" else "false"
    case Num(n) => IntToString(n)
    case Str(s) => s
    case Arr(items) => ElementsText(items)
    case Obj(_) => "[object Object]"
  }

  /** `items.join(',')`: `null` and `undefined` elements print as "". */
  function ElementsText(items: seq<Value>): string
    decreases items
  {
    if |items| == 0 then ""
    else
      var head := if items[0].Null? || items[0].Undefined? then "" else ToJsString(items[0]);
      if |items| == 1 then head else head + "," + ElementsText(items[1..])
  }

  /** How one element of an array prints in `join`. */
  function ElementText(v: Value): string
  {
    if v.Null? || v.Undefined? then "" else ToJsString(v)
  }

  /** The printed elements of an array, one per element, in order. */
  function ElementTexts(items: seq<Value>): (ts: seq<string>)
    ensures |ts| == |items|
    ensures forall i :: 0 <= i < |items| ==> ts[i] == ElementText(items[i])
  {
    if |items| == 0 then [] else [ElementText(items[0])] + ElementTexts(items[1..])
  }

  /** `String(v)` gives a string back as it is and prints an array as its
      printed elements joined with ",". */
  lemma {:induction false} ToJsStringOfStringAndArray(s: string, items: seq<Value>)
    ensures ToJsString(Str(s)) == s
    ensures ToJsString(Arr(items)) == Join(ElementTexts(items), ",")
    decreases |items|
  {
    if |items| > 1 {
      ToJsStringOfStringAndArray(s, items[1..]);
      assert ElementTexts(items)[1..] == ElementTexts(items[1..]);
    }
  }

  const ENVELOPE_FILENAME := "envelope.yml"

  /** `Object.keys(normalized)`: the fields a config may hold. */
  const NormalizedKeys: seq<string> := ["version", "develop", "release", "ports"]

  /** A thrown exception: an `Error` with its message, or the `TypeError` of
      destructuring `null` or `undefined` (its wording is the engine's). */
  datatype Thrown = Error(message: string) | TypeError

  /** How an expression completes: with a value, or by throwing. */
  datatype Completion<T> = Normal(value: T) | Abrupt(thrown: Thrown)

  const MissingVersion := "Missing required \"version\" field"

  function UnsupportedVersion(version: Value): string
  {
    "Unsupported " + ENVELOPE_FILENAME + " version (" + ToJsString(version)
    + ") -- please upgrade envelope and try again"
  }

  function UnknownField(key: string): string
  {
    "Unknown " + ENVELOPE_FILENAME + " field \"" + key + "\""
  }

  /** The key loop: the first key outside the whitelist, if any. */
  function FirstUnknown(keys: seq<string>): (k: Option<string>)
    ensures k.None? <==> forall i :: 0 <= i < |keys| ==> keys[i] in NormalizedKeys
    ensures k.Some? ==> exists i :: 0 <= i < |keys| && keys[i] == k.value && k.value !in NormalizedKeys
                                  && forall j :: 0 <= j < i ==> keys[j] in NormalizedKeys
  {
    if |keys| == 0 then None
    else if keys[0] !in NormalizedKeys then Some(keys[0])
    else
      var rest := FirstUnknown(keys[1..]);
      assert forall i :: 1 <= i < |keys| ==> keys[i] == keys[1..][i - 1];
      rest
  }

  /** The four-key object `{ version, develop, release, ports }`, each taken
      from the input, `undefined` when missing. */
  function Normalized(config: Value): (o: Value)
    ensures o.Obj? && Keys(o) == NormalizedKeys
    ensures Get(o, "version") == Get(config, "version") && Get(o, "develop") == Get(config, "develop")
    ensures Get(o, "release") == Get(config, "release") && Get(o, "ports") == Get(config, "ports")
  {
    var entries := [("version", Get(config, "version")), ("develop", Get(config, "develop")),
                    ("release", Get(config, "release")), ("ports", Get(config, "ports"))];
    assert "version"[0] == 'v' && "develop"[0] == 'd' && "release"[0] == 'r' && "ports"[0] == 'p';
    assert Lookup(entries, "develop") == Lookup(entries[1..], "develop") == entries[1].1;
    assert Lookup(entries, "release") == Lookup(entries[1..], "release") == Lookup(entries[2..], "release");
    assert Lookup(entries[2..], "release") == entries[2].1;
    assert Lookup(entries, "ports") == Lookup(entries[1..], "ports") == Lookup(entries[2..], "ports");
    assert Lookup(entries[2..], "ports") == Lookup(entries[3..], "ports") == entries[3].1;
    Obj(entries)
  }

  /** The checks of `normalize`, in order: destructuring, the version's
      presence, its support, then the keys. The first failure, if any. */
  function Check(config: Value, supported: Value -> bool): Option<Thrown>
  {
    if config.Null? || config.Undefined? then Some(TypeError)
    else
      var version := Get(config, "version");
      if !Truthy(version) then Some(Error(MissingVersion))
      else if !supported(version) then Some(Error(UnsupportedVersion(version)))
      else
        match FirstUnknown(Keys(config))
        case Some(k) => Some(Error(UnknownField(k)))
        case None => None
  }

  /** `normalize(config)`, with `supported` standing for
      `satisfies(coerce(version), '0.x')`. On success the result is an object
      with exactly the four whitelisted keys, in order, each holding the
      input's value for that key. */
  function Normalize(config: Value, supported: Value -> bool): (r: Completion<Value>)
    ensures r.Normal? ==> r.value.Obj? && Keys(r.value) == NormalizedKeys
    ensures r.Normal? ==> forall k :: k in NormalizedKeys ==> Get(r.value, k) == Get(config, k)
  {
    match Check(config, supported)
    case Some(e) => Abrupt(e)
    case None => Normal(Normalized(config))
  }

  /** The checks come in order: a missing or falsy version is reported
      whatever else the config holds, an unsupported version before any key
      is looked at, and an unknown key only once the version passed. */
  lemma NormalizeReportsInOrder(config: Value, supported: Value -> bool)
    requires !config.Null? && !config.Undefined?
    ensures var v := Get(config, "version");
            var r := Normalize(config, supported);
            && (!Truthy(v) ==> r == Abrupt(Error(MissingVersion)))
            && (Truthy(v) && !supported(v) ==> r == Abrupt(Error(UnsupportedVersion(v))))
            && (Truthy(v) && supported(v) && FirstUnknown(Keys(config)).Some? ==>
                  r == Abrupt(Error(UnknownField(FirstUnknown(Keys(config)).value))))
  {
  }

  /** Normalisation succeeds exactly for an object with a truthy, supported
      version and no key outside the whitelist. */
  lemma NormalizeSucceedsIff(config: Value, supported: Value -> bool)
    ensures var v := Get(config, "version");
            Normalize(config, supported).Normal?
            <==> config.Obj? && Truthy(v) && supported(v) && forall k :: k in Keys(config) ==> k in NormalizedKeys
  {
    var v := Get(config, "version");
    if config.Obj? && Truthy(v) && supported(v) {
      var ks := Keys(config);
      assert (forall k :: k in ks ==> k in NormalizedKeys)
             <==> (forall i :: 0 <= i < |ks| ==> ks[i] in NormalizedKeys);
    }
  }

  /** Normalising a normalised config succeeds and changes nothing. */
  lemma NormalizeIdempotent(config: Value, supported: Value -> bool)
    requires Normalize(config, supported).Normal?
    ensures var once := Normalize(config, supported).value;
            Normalize(once, supported) == Normal(once)
  {
    var once := Normalize(config, supported).value;
    assert once == Normalized(config);
    assert Get(once, "version") == Get(config, "version");
    assert Keys(once) == NormalizedKeys;
    assert FirstUnknown(Keys(once)) == None;
    assert Normalized(once) == once;
  }
}
