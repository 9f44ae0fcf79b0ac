/** The species catalog reader of src/data/loader.py: how one entry of the
    parsed catalog document becomes a `Spec`, with the defaults and the
    conversions `load_monster_db` applies, and the built-in catalog
    written on first run. Opening, writing and parsing the file itself are
    not modelled; the input is the document `json.load` returns. */
module Loader {
  import opened Wrappers
  import opened Numeric
  import opened JsonData
  import opened Monsters

  /** `d.get(name)`. */
  function Get(d: map<string, Json>, name: string): (r: Option<Json>)
    ensures r.Some? <==> name in d
    ensures r.Some? ==> r.value == d[name]
  {
    if name in d then Some(d[name]) else None
  }

  /** `d[name]`: KeyError when the key is absent. */
  function Field(d: map<string, Json>, name: string): (r: Result<Json>)
    ensures r.Success? <==> name in d
    ensures r.Success? ==> r.value == d[name]
    ensures r.Failure? ==> r.error == MissingKey(name)
  {
    if name in d then Success(d[name]) else Failure(MissingKey(name))
  }

  predicate IsDigit(c: char) {
    '0' <= c <= '9'
  }

  /** `str.isdigit()` on ASCII text: non-empty and digits only. */
  predicate IsDigits(s: string) {
    |s| > 0 && forall i :: 0 <= i < |s| ==> IsDigit(s[i])
  }

  /** The number a digit string spells. */
  function DigitsValue(s: string): (n: nat)
    requires forall i :: 0 <= i < |s| ==> IsDigit(s[i])
    decreases |s|
  {
    if |s| == 0 then 0
    else
      assert IsDigit(s[|s| - 1]);
      DigitsValue(s[..|s| - 1]) * 10 + (s[|s| - 1] as int - '0' as int)
  }

  /** `str(n)` for a natural number. */
  function Decimal(n: nat): (s: string)
    ensures IsDigits(s)
    decreases n
  {
    var d := ['0' + (n % 10) as char];
    if n < 10 then d else Decimal(n / 10) + d
  }

  /** Reading back what `str` wrote gives the number again. */
  lemma {:induction false} DecimalRoundTrip(n: nat)
    ensures DigitsValue(Decimal(n)) == n
    decreases n
  {
    var s := Decimal(n);
    if n >= 10 {
      DecimalRoundTrip(n / 10);
      assert s[..|s| - 1] == Decimal(n / 10);
    }
  }

  /** `str(v)` as far as `isdigit` can tell: the decimal text of an integer
      (with a minus sign when negative) and a string itself. Every other
      value's text ("True", "None", "5.0", "[...]", "{...}") holds a
      character that is not a digit, which the placeholder "." stands for. */
  function Text(v: Json): string {
    match v
    case JInt(i) => if i >= 0 then Decimal(i) else "-" + Decimal(-i)
    case JStr(s) => s
    case _ => "."
  }

  /** `int(v)`: integers as they are, floats truncated toward zero,
      booleans as 0 and 1, and a digit string by its value; anything else
      raises. */
  function ToInt(v: Json, field: string): (r: Result<int>)
    ensures v.JInt? ==> r == Success(v.i)
    ensures v.JReal? ==> r == Success(Trunc(v.r))
    ensures v.JNull? || v.JArr? || v.JObj? ==> r == Failure(BadValue(field))
  {
    match v
    case JInt(i) => Success(i)
    case JReal(x) => Success(Trunc(x))
    case JBool(b) => Success(if b then 1 else 0)
    case JStr(s) => if IsDigits(s) then Success(DigitsValue(s)) else Failure(BadValue(field))
    case _ => Failure(BadValue(field))
  }

  /** Text made of digits only, possibly none. */
  predicate AllDigits(s: string) {
    forall i :: 0 <= i < |s| ==> IsDigit(s[i])
  }

  function Pow10(n: nat): (r: nat)
    ensures r >= 1
  {
    if n == 0 then 1 else 10 * Pow10(n - 1)
  }

  /** The position of the first decimal point, if there is one. */
  function PointAt(s: string): (r: Option<nat>)
    ensures r.Some? ==> r.value < |s| && s[r.value] == '.' && forall i :: 0 <= i < r.value ==> s[i] != '.'
    ensures r.None? ==> forall i :: 0 <= i < |s| ==> s[i] != '.'
  {
    if |s| == 0 then None
    else if s[0] == '.' then Some(0)
    else
      match PointAt(s[1..])
      case Some(k) => Some(k + 1)
      case None => None
  }

  /** `float(s)` on plain decimal text: digits with at most one point and
      at least one digit ("5", "0.9", "5." and ".5"); other text is
      refused. */
  function DecimalValue(s: string): (r: Option<real>)
    ensures IsDigits(s) ==> r == Some(DigitsValue(s) as real)
    ensures r.Some? ==> r.value >= 0.0
  {
    match PointAt(s)
    case None => if IsDigits(s) then Some(DigitsValue(s) as real) else None
    case Some(k) => PointValue(s[..k], s[k + 1..])
  }

  /** The value of the digits before and after a decimal point; at least
      one side must hold a digit. */
  function PointValue(whole: string, frac: string): (r: Option<real>)
    ensures r.Some? <==> AllDigits(whole) && AllDigits(frac) && |whole| + |frac| > 0
    ensures r.Some? ==> r.value >= 0.0
  {
    if AllDigits(whole) && AllDigits(frac) && |whole| + |frac| > 0 then
      Some(DigitsValue(whole) as real + DigitsValue(frac) as real / Pow10(|frac|) as real)
    else None
  }

  /** Digits, a point and more digits read as the whole part plus the
      fraction, each digit after the point worth a tenth of the one before. */
  lemma DecimalValueRoundTrip(a: string, b: string)
    requires IsDigits(a) && IsDigits(b)
    ensures DecimalValue(a + "." + b)
      == Some(DigitsValue(a) as real + DigitsValue(b) as real / Pow10(|b|) as real)
  {
    var s := a + "." + b;
    PointAfterDigits(a, b);
    DecimalValueAtPoint(s, |a|);
    assert s[..|a|] == a && s[|a| + 1..] == b;
    PointValueOfDigits(a, b);
  }

  /** Digits on both sides of the point read as the whole part plus the
      fraction. */
  lemma PointValueOfDigits(a: string, b: string)
    requires IsDigits(a) && IsDigits(b)
    ensures PointValue(a, b) == Some(DigitsValue(a) as real + DigitsValue(b) as real / Pow10(|b|) as real)
  {
  }

  /** Text whose first point is at `k` reads as the digits on either side. */
  lemma DecimalValueAtPoint(s: string, k: nat)
    requires PointAt(s) == Some(k)
    ensures k < |s|
    ensures DecimalValue(s) == PointValue(s[..k], s[k + 1..])
  {
  }

  /** The first point of digits, a point and more text is the one after
      the digits. */
  lemma {:induction false} PointAfterDigits(a: string, b: string)
    requires AllDigits(a)
    ensures PointAt(a + "." + b) == Some(|a|)
    decreases |a|
  {
    if |a| > 0 {
      assert (a + "." + b)[1..] == a[1..] + "." + b;
      PointAfterDigits(a[1..], b);
    }
  }

  /** `float(v)`: numbers as they are, booleans as 0.0 and 1.0, and plain
      decimal text by its value; anything else raises. */
  function ToReal(v: Json, field: string): (r: Result<real>)
    ensures v.JInt? ==> r == Success(v.i as real)
    ensures v.JReal? ==> r == Success(v.r)
    ensures v.JStr? && IsDigits(v.s) ==> r == Success(DigitsValue(v.s) as real)
    ensures v.JStr? ==> (r.Success? <==> DecimalValue(v.s).Some?)
    ensures v.JStr? && r.Success? ==> r.value >= 0.0
    ensures v.JNull? || v.JArr? || v.JObj? ==> r == Failure(BadValue(field))
  {
    match v
    case JInt(i) => Success(i as real)
    case JReal(x) => Success(x)
    case JBool(b) => Success(if b then 1.0 else 0.0)
    case JStr(s) =>
      (match DecimalValue(s)
       case Some(x) => Success(x)
       case None => Failure(BadValue(field)))
    case _ => Failure(BadValue(field))
  }

  /** An accuracy written as text, as in `"accuracy": "0.9"`, loads as the
      number. */
  lemma AccuracyFromText()
    ensures ToReal(JStr("0.9"), "accuracy") == Success(0.9)
  {
    DecimalValueRoundTrip("0", "9");
    assert "0" + "." + "9" == "0.9";
  }

  /** A text field kept as it is. */
  function ToText(v: Json, field: string): (r: Result<string>)
    ensures r.Success? <==> v.JStr?
    ensures r.Success? ==> r.value == v.s
  {
    match v
    case JStr(s) => Success(s)
    case _ => Failure(BadValue(field))
  }

  /** `Move(m["name"], int(m["power"]), float(m["accuracy"]))`; the kind
      takes its default "physical". */
  function ParseMove(m: Json): (r: Result<Move>)
    ensures r.Success? ==> m.JObj? && "name" in m.fields && "power" in m.fields && "accuracy" in m.fields
    ensures r.Success? ==> r.value.kind == Physical
    ensures r.Success? ==> Success(r.value.name) == ToText(m.fields["name"], "name")
    ensures r.Success? ==> Success(r.value.power) == ToInt(m.fields["power"], "power")
    ensures r.Success? ==> Success(r.value.accuracy) == ToReal(m.fields["accuracy"], "accuracy")
  {
    match m
    case JObj(f) =>
      var nj :- Field(f, "name");
      var name :- ToText(nj, "name");
      var pj :- Field(f, "power");
      var power :- ToInt(pj, "power");
      var aj :- Field(f, "accuracy");
      var accuracy :- ToReal(aj, "accuracy");
      Success(Move(name, power, accuracy, Physical))
    case _ => Failure(BadValue("learnset"))
  }

  /** The moves of a learnset list, in order; the first bad move raises. */
  function ParseMoves(items: seq<Json>): (r: Result<seq<Move>>)
    ensures r.Success? <==> forall i :: 0 <= i < |items| ==> ParseMove(items[i]).Success?
    ensures r.Success? ==> |r.value| == |items|
    ensures r.Success? ==> forall i :: 0 <= i < |items| ==> r.value[i] == ParseMove(items[i]).value
  {
    if |items| == 0 then Success([])
    else
      var m :- ParseMove(items[0]);
      var rest :- ParseMoves(items[1..]);
      Success([m] + rest)
  }

  /** `d.get("learnset", [])` iterated: a list gives its moves, and an
      empty object or empty string iterates to nothing; any other value
      fails on `m["name"]` or on iteration. */
  function ParseLearnset(v: Option<Json>): (r: Result<seq<Move>>)
    ensures v.None? ==> r == Success([])
    ensures v.Some? && v.value.JArr? ==> r == ParseMoves(v.value.items)
    ensures r.Success? ==> forall i :: 0 <= i < |r.value| ==> r.value[i].kind == Physical
  {
    match v
    case None => Success([])
    case Some(JArr(items)) => ParseMoves(items)
    case Some(JObj(f)) => if |f| == 0 then Success([]) else Failure(BadValue("learnset"))
    case Some(JStr(s)) => if |s| == 0 then Success([]) else Failure(BadValue("learnset"))
    case Some(_) => Failure(BadValue("learnset"))
  }

  /** `evolves_to`: a species key, or None when absent or null. */
  function ParseTarget(v: Option<Json>): (r: Result<Option<string>>)
    ensures v.None? || v == Some(JNull) ==> r == Success(None)
    ensures v.Some? && v.value.JStr? ==> r == Success(Some(v.value.s))
  {
    match v
    case None => Success(None)
    case Some(JNull) => Success(None)
    case Some(JStr(s)) => Success(Some(s))
    case Some(_) => Failure(BadValue("evolves_to"))
  }

  /** `int(d["evolution_level"]) if str(d.get("evolution_level", "")).isdigit()
      else None`. */
  function EvolutionLevelOf(v: Option<Json>): (r: Option<int>)
    ensures v.None? ==> r.None?
    ensures v.Some? && v.value.JInt? ==> r == (if v.value.i >= 0 then Some(v.value.i) else None)
    ensures v.Some? && v.value.JStr? ==> r == (if IsDigits(v.value.s) then Some(DigitsValue(v.value.s)) else None)
    ensures v.Some? && !v.value.JInt? && !v.value.JStr? ==> r.None?
    ensures r.Some? ==> r.value >= 0
  {
    match v
    case None => None
    case Some(j) =>
      var t := Text(j);
      if IsDigits(t) then
        match j
        case JInt(i) =>
          if i >= 0 then DecimalRoundTrip(i); Some(i) else None
        case JStr(s) => Some(DigitsValue(s))
        case _ => None
      else
        None
  }

  /** `d.get("evolution_requirements", {})`. */
  function Requirements(v: Option<Json>): (r: Option<Json>)
    ensures v.None? ==> r == Some(EmptyObject)
    ensures v == Some(JNull) ==> r.None?
    ensures v.Some? && v.value != JNull ==> r == v
  {
    match v
    case None => Some(EmptyObject)
    case Some(JNull) => None
    case Some(j) => Some(j)
  }

  /** `d[name]` kept as text. */
  function TextField(f: map<string, Json>, name: string): (r: Result<string>)
    ensures r.Success? <==> name in f && f[name].JStr?
    ensures r.Success? ==> r.value == f[name].s
  {
    var j :- Field(f, name);
    ToText(j, name)
  }

  /** `int(d[name])`. */
  function IntField(f: map<string, Json>, name: string): (r: Result<int>)
    ensures r.Success? ==> name in f && r == ToInt(f[name], name)
    ensures name !in f ==> r == Failure(MissingKey(name))
  {
    var j :- Field(f, name);
    ToInt(j, name)
  }

  /** The catalog's default catch rate. */
  const DefaultCatchRate: int := 100

  /** One catalog entry under `key`. The learnset is read first, then the
      required fields in the order `MonsterSpec(...)` lists them. */
  function ParseSpec(key: string, d: Json): (r: Result<Spec>)
    ensures !d.JObj? ==> r.Failure?
    ensures r.Success? ==> d.JObj? && "name" in d.fields && "element" in d.fields
    ensures r.Success? ==> "base_hp" in d.fields && "base_atk" in d.fields && "base_def" in d.fields && "base_spd" in d.fields
    ensures r.Success? ==> r.value.key == key
    ensures r.Success? ==> Success(r.value.learnset) == ParseLearnset(Get(d.fields, "learnset"))
    ensures r.Success? ==> Success(r.value.baseHp) == ToInt(d.fields["base_hp"], "base_hp")
    ensures r.Success? && "catch_rate" !in d.fields ==> r.value.catchRate == DefaultCatchRate
    ensures r.Success? && "catch_rate" in d.fields ==> Success(r.value.catchRate) == ToInt(d.fields["catch_rate"], "catch_rate")
    ensures r.Success? ==> r.value.evolutionLevel == EvolutionLevelOf(Get(d.fields, "evolution_level"))
    ensures r.Success? ==> r.value.evolutionRequirements == Requirements(Get(d.fields, "evolution_requirements"))
    ensures d.JObj? && "name" !in d.fields ==> r.Failure?
  {
    match d
    case JObj(f) =>
      var learnset :- ParseLearnset(Get(f, "learnset"));
      var name :- TextField(f, "name");
      var element :- TextField(f, "element");
      var hp :- IntField(f, "base_hp");
      var atk :- IntField(f, "base_atk");
      var def :- IntField(f, "base_def");
      var spd :- IntField(f, "base_spd");
      var rate :- ToInt(Get(f, "catch_rate").GetOr(JInt(DefaultCatchRate)), "catch_rate");
      var target :- ParseTarget(Get(f, "evolves_to"));
      Success(Spec(key, name, element, hp, atk, def, spd, rate, learnset, target,
                   EvolutionLevelOf(Get(f, "evolution_level")),
                   Requirements(Get(f, "evolution_requirements"))))
    case _ => Failure(BadValue(key))
  }

  /** `load_monster_db` on the parsed document: every entry under
      "monsters" (none when the key is absent) becomes the spec of its key;
      one bad entry makes the whole load raise. */
  function LoadDb(data: Json): (r: Result<map<string, Spec>>)
    ensures r.Success? ==> data.JObj?
    ensures data.JObj? && "monsters" !in data.fields ==> r == Success(map[])
    ensures r.Success? && "monsters" in data.fields ==>
      && data.fields["monsters"].JObj?
      && r.value.Keys == data.fields["monsters"].fields.Keys
      && forall k :: k in r.value ==> Success(r.value[k]) == ParseSpec(k, data.fields["monsters"].fields[k])
    ensures data.JObj? && "monsters" in data.fields && data.fields["monsters"].JObj? ==>
      (r.Success? <==> forall k :: k in data.fields["monsters"].fields ==> ParseSpec(k, data.fields["monsters"].fields[k]).Success?)
    ensures r.Success? ==> forall k :: k in r.value ==> r.value[k].key == k
  {
    if !data.JObj? then Failure(BadValue("monsters"))
    else
      var monsters := Get(data.fields, "monsters").GetOr(EmptyObject);
      if !monsters.JObj? then Failure(BadValue("monsters"))
      else ParseAll(monsters.fields)
  }

  /** Every entry of the `monsters` object parsed under its own key; one
      bad entry fails the whole catalog. */
  function ParseAll(entries: map<string, Json>): (r: Result<map<string, Spec>>)
    ensures r.Success? ==>
      && r.value.Keys == entries.Keys
      && forall k :: k in r.value ==> Success(r.value[k]) == ParseSpec(k, entries[k])
    ensures r.Success? <==> forall k :: k in entries ==> ParseSpec(k, entries[k]).Success?
  {
    if forall k :: k in entries ==> ParseSpec(k, entries[k]).Success? then
      Success(map k | k in entries :: ParseSpec(k, entries[k]).value)
    else Failure(BadValue("monsters"))
  }

  // ------------------------------------------------------------ writing

  function MoveJson(m: Move): Json {
    JObj(map["name" := JStr(m.name), "power" := JInt(m.power), "accuracy" := JReal(m.accuracy)])
  }

  /** A catalog entry for a spec, in the layout the default catalog uses;
      an absent evolution target or level is left out, absent requirements
      are written as null. */
  function SpecJson(s: Spec): Json {
    var base := map[
      "name" := JStr(s.name), "element" := JStr(s.element),
      "base_hp" := JInt(s.baseHp), "base_atk" := JInt(s.baseAtk),
      "base_def" := JInt(s.baseDef), "base_spd" := JInt(s.baseSpd),
      "catch_rate" := JInt(s.catchRate),
      "learnset" := JArr(MovesJson(s.learnset)),
      "evolution_requirements" := s.evolutionRequirements.GetOr(JNull)];
    var withTarget := if s.evolvesTo.Some? then base["evolves_to" := JStr(s.evolvesTo.value)] else base;
    JObj(if s.evolutionLevel.Some? then withTarget["evolution_level" := JInt(s.evolutionLevel.value)] else withTarget)
  }

  function MovesJson(ms: seq<Move>): (r: seq<Json>)
    ensures |r| == |ms| && forall i :: 0 <= i < |ms| ==> r[i] == MoveJson(ms[i])
  {
    seq(|ms|, i requires 0 <= i < |ms| => MoveJson(ms[i]))
  }

  /** A spec the catalog format can hold: moves of the default kind, a
      non-negative evolution level, and requirements that are not null. */
  predicate Writable(s: Spec) {
    && (forall i :: 0 <= i < |s.learnset| ==> s.learnset[i].kind == Physical)
    && (s.evolutionLevel.Some? ==> s.evolutionLevel.value >= 0)
    && s.evolutionRequirements != Some(JNull)
  }

  /** What each key of a written entry holds. */
  lemma SpecJsonFields(s: Spec)
    ensures var f := SpecJson(s).fields;
      && Get(f, "name") == Some(JStr(s.name)) && Get(f, "element") == Some(JStr(s.element))
      && Get(f, "base_hp") == Some(JInt(s.baseHp)) && Get(f, "base_atk") == Some(JInt(s.baseAtk))
      && Get(f, "base_def") == Some(JInt(s.baseDef)) && Get(f, "base_spd") == Some(JInt(s.baseSpd))
      && Get(f, "catch_rate") == Some(JInt(s.catchRate))
      && Get(f, "learnset") == Some(JArr(MovesJson(s.learnset)))
      && Get(f, "evolution_requirements") == Some(s.evolutionRequirements.GetOr(JNull))
      && Get(f, "evolves_to") == (if s.evolvesTo.Some? then Some(JStr(s.evolvesTo.value)) else None)
      && Get(f, "evolution_level") == (if s.evolutionLevel.Some? then Some(JInt(s.evolutionLevel.value)) else None)
  {
    SpecJsonStats(s);
    SpecJsonRest(s);
  }

  /** The four base stats of a written entry; split from `SpecJsonFields`
      so that each proof looks up only a few keys. */
  lemma SpecJsonStats(s: Spec)
    ensures var f := SpecJson(s).fields;
      && Get(f, "name") == Some(JStr(s.name)) && Get(f, "element") == Some(JStr(s.element))
      && Get(f, "base_hp") == Some(JInt(s.baseHp)) && Get(f, "base_atk") == Some(JInt(s.baseAtk))
      && Get(f, "base_def") == Some(JInt(s.baseDef)) && Get(f, "base_spd") == Some(JInt(s.baseSpd))
  {
    SpecJsonNames(s);
  }

  /** The name and the element of a written entry, split off for the same
      reason. */
  lemma SpecJsonNames(s: Spec)
    ensures var f := SpecJson(s).fields;
      && Get(f, "name") == Some(JStr(s.name)) && Get(f, "element") == Some(JStr(s.element))
  {
  }

  /** The remaining keys of a written entry, split off for the same
      reason. */
  lemma SpecJsonRest(s: Spec)
    ensures var f := SpecJson(s).fields;
      && Get(f, "catch_rate") == Some(JInt(s.catchRate))
      && Get(f, "learnset") == Some(JArr(MovesJson(s.learnset)))
      && Get(f, "evolution_requirements") == Some(s.evolutionRequirements.GetOr(JNull))
      && Get(f, "evolves_to") == (if s.evolvesTo.Some? then Some(JStr(s.evolvesTo.value)) else None)
      && Get(f, "evolution_level") == (if s.evolutionLevel.Some? then Some(JInt(s.evolutionLevel.value)) else None)
  {
  }

  /** Reading back a written entry gives the spec again. */
  lemma SpecRoundTrip(s: Spec)
    requires Writable(s)
    ensures ParseSpec(s.key, SpecJson(s)) == Success(s)
  {
    SpecJsonFields(s);
    MovesRoundTrip(s.learnset);
    var f := SpecJson(s).fields;
    assert ParseLearnset(Get(f, "learnset")) == Success(s.learnset);
    assert EvolutionLevelOf(Get(f, "evolution_level")) == s.evolutionLevel;
    assert Requirements(Get(f, "evolution_requirements")) == s.evolutionRequirements;
    ParseSpecFrom(s.key, f, s.learnset, s.name, s.element, s.baseHp, s.baseAtk, s.baseDef, s.baseSpd,
                  s.catchRate, s.evolvesTo);
  }

  /** `ParseSpec` on an object whose every field reads back as given. */
  lemma ParseSpecFrom(key: string, f: map<string, Json>, learnset: seq<Move>, name: string, element: string,
                      hp: int, atk: int, def: int, spd: int, rate: int, target: Option<string>)
    requires ParseLearnset(Get(f, "learnset")) == Success(learnset)
    requires TextField(f, "name") == Success(name) && TextField(f, "element") == Success(element)
    requires IntField(f, "base_hp") == Success(hp) && IntField(f, "base_atk") == Success(atk)
    requires IntField(f, "base_def") == Success(def) && IntField(f, "base_spd") == Success(spd)
    requires ToInt(Get(f, "catch_rate").GetOr(JInt(DefaultCatchRate)), "catch_rate") == Success(rate)
    requires ParseTarget(Get(f, "evolves_to")) == Success(target)
    ensures ParseSpec(key, JObj(f)) == Success(Spec(key, name, element, hp, atk, def, spd, rate, learnset, target,
                                                    EvolutionLevelOf(Get(f, "evolution_level")),
                                                    Requirements(Get(f, "evolution_requirements"))))
  {
  }

  lemma MovesRoundTrip(ms: seq<Move>)
    requires forall i :: 0 <= i < |ms| ==> ms[i].kind == Physical
    ensures ParseMoves(MovesJson(ms)) == Success(ms)
  {
    var items := MovesJson(ms);
    forall i | 0 <= i < |ms|
      ensures ParseMove(items[i]) == Success(ms[i])
    {
      MoveRoundTrip(ms[i]);
    }
    var r := ParseMoves(items);
    assert r.Success?;
    assert r.value == ms;
  }

  lemma MoveRoundTrip(m: Move)
    requires m.kind == Physical
    ensures ParseMove(MoveJson(m)) == Success(m)
  {
    var f := MoveJson(m).fields;
    assert Field(f, "name") == Success(JStr(m.name));
    assert Field(f, "power") == Success(JInt(m.power));
    assert Field(f, "accuracy") == Success(JReal(m.accuracy));
  }

  // ---------------------------------------------------- built-in catalog

  /** A catalog entry as `DEFAULT_MONSTERS` writes them: the required
      fields, an icon path and a learnset, no evolution fields. */
  function Entry(name: string, element: string, hp: int, atk: int, def: int, spd: int,
                 rate: int, icon: string, learnset: seq<Move>): Json
  {
    JObj(map[
      "name" := JStr(name), "element" := JStr(element),
      "base_hp" := JInt(hp), "base_atk" := JInt(atk), "base_def" := JInt(def), "base_spd" := JInt(spd),
      "catch_rate" := JInt(rate), "icon" := JStr(icon),
      "learnset" := JArr(MovesJson(learnset))])
  }

  /** Such an entry loads into the spec with the same stats, no evolution
      target or level, and empty requirements; the icon is dropped. */
  lemma EntryLoads(key: string, name: string, element: string, hp: int, atk: int, def: int, spd: int,
                   rate: int, icon: string, learnset: seq<Move>)
    requires forall i :: 0 <= i < |learnset| ==> learnset[i].kind == Physical
    ensures ParseSpec(key, Entry(name, element, hp, atk, def, spd, rate, icon, learnset))
         == Success(Spec(key, name, element, hp, atk, def, spd, rate, learnset, None, None, Some(EmptyObject)))
  {
    EntryFields(name, element, hp, atk, def, spd, rate, icon, learnset);
    MovesRoundTrip(learnset);
  }

  lemma EntryFields(name: string, element: string, hp: int, atk: int, def: int, spd: int,
                    rate: int, icon: string, learnset: seq<Move>)
    ensures var f := Entry(name, element, hp, atk, def, spd, rate, icon, learnset).fields;
      && Get(f, "name") == Some(JStr(name)) && Get(f, "element") == Some(JStr(element))
      && Get(f, "base_hp") == Some(JInt(hp)) && Get(f, "base_atk") == Some(JInt(atk))
      && Get(f, "base_def") == Some(JInt(def)) && Get(f, "base_spd") == Some(JInt(spd))
      && Get(f, "catch_rate") == Some(JInt(rate))
      && Get(f, "learnset") == Some(JArr(MovesJson(learnset)))
      && Get(f, "evolves_to") == None && Get(f, "evolution_level") == None
      && Get(f, "evolution_requirements") == None
  {
    EntryStats(name, element, hp, atk, def, spd, rate, icon, learnset);
    EntryRest(name, element, hp, atk, def, spd, rate, icon, learnset);
  }

  /** The four base stats of a catalogue entry; split from `EntryFields`
      so that each proof looks up only a few keys. */
  lemma EntryStats(name: string, element: string, hp: int, atk: int, def: int, spd: int,
                   rate: int, icon: string, learnset: seq<Move>)
    ensures var f := Entry(name, element, hp, atk, def, spd, rate, icon, learnset).fields;
      && Get(f, "name") == Some(JStr(name)) && Get(f, "element") == Some(JStr(element))
      && Get(f, "base_hp") == Some(JInt(hp)) && Get(f, "base_atk") == Some(JInt(atk))
      && Get(f, "base_def") == Some(JInt(def)) && Get(f, "base_spd") == Some(JInt(spd))
  {
  }

  /** The remaining keys of a catalogue entry, split off for the same
      reason. */
  lemma EntryRest(name: string, element: string, hp: int, atk: int, def: int, spd: int,
                  rate: int, icon: string, learnset: seq<Move>)
    ensures var f := Entry(name, element, hp, atk, def, spd, rate, icon, learnset).fields;
      && Get(f, "catch_rate") == Some(JInt(rate))
      && Get(f, "learnset") == Some(JArr(MovesJson(learnset)))
      && Get(f, "evolves_to") == None && Get(f, "evolution_level") == None
      && Get(f, "evolution_requirements") == None
  {
  }

  /** The five built-in species: display name, element, stats, catch rate,
      icon and learnset, in that order. */
  datatype Builtin = Builtin(name: string, element: string, hp: int, atk: int, def: int, spd: int,
                             rate: int, icon: string, learnset: seq<Move>)

  function BuiltinEntry(b: Builtin): Json {
    Entry(b.name, b.element, b.hp, b.atk, b.def, b.spd, b.rate, b.icon, b.learnset)
  }

  const SlimeGirl: Builtin := Builtin("Slime Girl", "Water", 20, 8, 6, 7, 190, "assets/monsters/slime_girl.png",
    [Move("Splash Kiss", 30, 0.95, Physical), Move("Ooze Slam", 40, 0.9, Physical)])
  const Harpy: Builtin := Builtin("Harpy", "Air", 22, 9, 6, 12, 160, "assets/monsters/harpy.png",
    [Move("Gust Peck", 35, 0.95, Physical), Move("Sky Rake", 45, 0.88, Physical)])
  const Minotaur: Builtin := Builtin("Minotaur", "Earth", 28, 8, 12, 6, 120, "assets/monsters/minotaur.png",
    [Move("Tackle", 30, 0.95, Physical), Move("Labyrinth Rush", 40, 0.85, Physical)])
  const CaterpillarGirl: Builtin := Builtin("Caterpillar Girl", "Normal", 20, 8, 8, 8, 180, "assets/monsters/caterpillar_girl.png",
    [Move("Tackle", 30, 0.95, Physical), Move("String Shot", 20, 1.0, Physical)])
  const MouseGirl: Builtin := Builtin("Mouse Girl", "Normal", 16, 7, 5, 14, 200, "assets/monsters/mouse_girl.png",
    [Move("Tackle", 30, 0.95, Physical), Move("Dart", 20, 1.0, Physical)])

  /** `DEFAULT_MONSTERS`, the catalog written when none exists. */
  const DefaultMonsters: map<string, Json> := map[
    "slime_girl" := BuiltinEntry(SlimeGirl),
    "harpy" := BuiltinEntry(Harpy),
    "minotaur" := BuiltinEntry(Minotaur),
    "caterpillar_girl" := BuiltinEntry(CaterpillarGirl),
    "mouse_girl" := BuiltinEntry(MouseGirl)
  ]

  /** An entry that loads into a non-evolving spec with two moves. */
  predicate LoadsPlain(key: string, e: Json) {
    && ParseSpec(key, e).Success?
    && ParseSpec(key, e).value.evolvesTo.None?
    && |ParseSpec(key, e).value.learnset| == 2
  }

  /** A built-in entry loads into a non-evolving spec with its two moves. */
  lemma BuiltinLoads(key: string, b: Builtin)
    requires |b.learnset| == 2 && b.learnset[0].kind == Physical && b.learnset[1].kind == Physical
    ensures LoadsPlain(key, BuiltinEntry(b))
  {
    EntryLoads(key, b.name, b.element, b.hp, b.atk, b.def, b.spd, b.rate, b.icon, b.learnset);
  }

  lemma SlimeGirlLoads() ensures LoadsPlain("slime_girl", DefaultMonsters["slime_girl"]) {
    assert DefaultMonsters["slime_girl"] == BuiltinEntry(SlimeGirl);
    BuiltinLoads("slime_girl", SlimeGirl);
  }

  lemma HarpyLoads() ensures LoadsPlain("harpy", DefaultMonsters["harpy"]) {
    assert DefaultMonsters["harpy"] == BuiltinEntry(Harpy);
    BuiltinLoads("harpy", Harpy);
  }

  lemma MinotaurLoads() ensures LoadsPlain("minotaur", DefaultMonsters["minotaur"]) {
    assert DefaultMonsters["minotaur"] == BuiltinEntry(Minotaur);
    BuiltinLoads("minotaur", Minotaur);
  }

  lemma CaterpillarGirlLoads() ensures LoadsPlain("caterpillar_girl", DefaultMonsters["caterpillar_girl"]) {
    assert DefaultMonsters["caterpillar_girl"] == BuiltinEntry(CaterpillarGirl);
    BuiltinLoads("caterpillar_girl", CaterpillarGirl);
  }

  lemma MouseGirlLoads() ensures LoadsPlain("mouse_girl", DefaultMonsters["mouse_girl"]) {
    assert DefaultMonsters["mouse_girl"] == BuiltinEntry(MouseGirl);
    BuiltinLoads("mouse_girl", MouseGirl);
  }

  lemma DefaultKeys()
    ensures DefaultMonsters.Keys == {"slime_girl", "harpy", "minotaur", "caterpillar_girl", "mouse_girl"}
  {
  }

  /** One entry of the built-in catalog loads. */
  lemma DefaultEntryParses(k: string)
    requires k in DefaultMonsters
    ensures LoadsPlain(k, DefaultMonsters[k])
  {
    DefaultKeys();
    if k == "slime_girl" || k == "harpy" { EarlyEntryParses(k); }
    else if k == "minotaur" { MinotaurLoads(); }
    else { LateEntryParses(k); }
  }

  /** The slime girl and harpy entries load. The entries are split across
      small lemmas so that each proof unfolds only a few of them. */
  lemma EarlyEntryParses(k: string)
    requires k == "slime_girl" || k == "harpy"
    ensures LoadsPlain(k, DefaultMonsters[k])
  {
    if k == "slime_girl" { SlimeGirlLoads(); } else { HarpyLoads(); }
  }

  /** The caterpillar girl and mouse girl entries load (see
      `EarlyEntryParses`). */
  lemma LateEntryParses(k: string)
    requires k == "caterpillar_girl" || k == "mouse_girl"
    ensures LoadsPlain(k, DefaultMonsters[k])
  {
    if k == "caterpillar_girl" { CaterpillarGirlLoads(); } else { MouseGirlLoads(); }
  }

  /** Every entry of the built-in catalog loads. */
  lemma DefaultEntriesParse()
    ensures forall k :: k in DefaultMonsters ==> LoadsPlain(k, DefaultMonsters[k])
  {
    forall k | k in DefaultMonsters
      ensures LoadsPlain(k, DefaultMonsters[k])
    {
      DefaultEntryParses(k);
    }
  }

  /** A catalog whose every entry loads plainly loads as a whole, under the
      same keys. */
  lemma CatalogLoads(m: map<string, Json>)
    requires forall k :: k in m ==> LoadsPlain(k, m[k])
    ensures var r := LoadDb(JObj(map["monsters" := JObj(m)]));
      && r.Success?
      && r.value.Keys == m.Keys
      && forall k :: k in r.value ==> r.value[k].evolvesTo.None? && |r.value[k].learnset| == 2
  {
    var r := LoadDb(JObj(map["monsters" := JObj(m)]));
    assert r.Success?;
    forall k | k in r.value
      ensures r.value[k].evolvesTo.None? && |r.value[k].learnset| == 2
    {
      assert Success(r.value[k]) == ParseSpec(k, m[k]);
    }
  }

  /** The built-in catalog loads: five species keyed by their own keys,
      two moves each, none of which can ever evolve. */
  lemma DefaultCatalogLoads()
    ensures var r := LoadDb(JObj(map["monsters" := JObj(DefaultMonsters)]));
      && r.Success?
      && r.value.Keys == {"slime_girl", "harpy", "minotaur", "caterpillar_girl", "mouse_girl"}
      && forall k :: k in r.value ==> r.value[k].evolvesTo.None? && |r.value[k].learnset| == 2
  {
    DefaultKeys();
    DefaultEntriesParse();
    CatalogLoads(DefaultMonsters);
  }
}
