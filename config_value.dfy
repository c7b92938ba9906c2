/**
 * `ConfigValue`: a tagged value that carries one field per kind. Each
 * constructor sets the tag and its own field; every other field keeps its
 * default, and the accessors read their field whatever the tag says.
 */
module ConfigValues {

  datatype ValueType = Integer | Double | Boolean | String | Array

  datatype ConfigValue = ConfigValue(
    kind: ValueType,
    asInt: int,
    asDouble: real,
    asBool: bool,
    asString: string,
    asArray: seq<string>)
  {
    /** "Valid" unless this is an INTEGER holding 0. */
    predicate IsValid()
    {
      kind != Integer || asInt != 0
    }
  }

  /** `ConfigValue()`. */
  function DefaultValue(): (v: ConfigValue)
  {
    ConfigValue(Integer, 0, 0.0, false, "", [])
  }

  function OfInt(i: int): (v: ConfigValue)
  {
    DefaultValue().(kind := Integer, asInt := i)
  }

  function OfDouble(d: real): (v: ConfigValue)
  {
    DefaultValue().(kind := Double, asDouble := d)
  }

  function OfBool(b: bool): (v: ConfigValue)
  {
    DefaultValue().(kind := Boolean, asBool := b)
  }

  function OfString(s: string): (v: ConfigValue)
  {
    DefaultValue().(kind := String, asString := s)
  }

  function OfArray(a: seq<string>): (v: ConfigValue)
  {
    DefaultValue().(kind := Array, asArray := a)
  }

  /** The default value is an INTEGER 0, the one value that is not valid. */
  lemma DefaultIsIntegerZero()
    ensures DefaultValue().kind == Integer && DefaultValue().asInt == 0
    ensures !DefaultValue().IsValid()
    ensures DefaultValue() == OfInt(0)
  {
  }

  /**
   * Each constructor sets its tag and hands its argument back through the
   * matching accessor; the other accessors give their field's default.
   */
  lemma ConstructorsAndAccessors(i: int, d: real, b: bool, s: string, a: seq<string>)
    ensures OfInt(i).kind == Integer && OfInt(i).asInt == i
    ensures OfDouble(d).kind == Double && OfDouble(d).asDouble == d
    ensures OfBool(b).kind == Boolean && OfBool(b).asBool == b
    ensures OfString(s).kind == String && OfString(s).asString == s
    ensures OfArray(a).kind == Array && OfArray(a).asArray == a
    ensures OfInt(i).asDouble == 0.0 && OfInt(i).asBool == false
    ensures OfInt(i).asString == "" && OfInt(i).asArray == []
    ensures OfDouble(d).asInt == 0 && OfBool(b).asInt == 0
    ensures OfString(s).asInt == 0 && OfArray(a).asInt == 0
    ensures OfString(s).asDouble == 0.0 && OfBool(b).asString == ""
  {
  }

  /**
   * Only an integer zero is invalid: false, the empty string, the empty
   * array and 0.0 are all valid.
   */
  lemma ValidityOfConstructed(i: int, d: real, b: bool, s: string, a: seq<string>)
    ensures OfInt(i).IsValid() <==> i != 0
    ensures OfDouble(d).IsValid() && OfBool(b).IsValid()
    ensures OfString(s).IsValid() && OfArray(a).IsValid()
  {
  }
}
