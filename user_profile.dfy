/**
 * The profile document schema of the Firebase-based API: numeric bounds, numeric enums built by
 * filtering the numeric members out of a TypeScript enum's `Object.values`, a boolean, and
 * `required` on every field. The schema is data, and one validator reads any such schema.
 */
module UserProfile {

  /** A member of `Object.values(E)` for a numeric TypeScript enum: a reverse-mapping name or a value. */
  datatype EnumMember = Name(name: string) | Number(value: real)

  /** The names of an enum as members of `Object.values`. */
  function Names(names: seq<string>): (r: seq<EnumMember>)
    ensures |r| == |names|
  {
    if |names| == 0 then [] else [Name(names[0])] + Names(names[1..])
  }

  /** The values of an enum as members of `Object.values`. */
  function Numbers(values: seq<real>): (r: seq<EnumMember>)
    ensures |r| == |values|
  {
    if |values| == 0 then [] else [Number(values[0])] + Numbers(values[1..])
  }

  /**
   * `Object.values(E)` for an enum whose values are the small whole numbers: the integer keys of
   * the reverse mapping come first, so the names (in value order) precede the values.
   */
  function ObjectValues(names: seq<string>, values: seq<real>): seq<EnumMember>
  {
    Names(names) + Numbers(values)
  }

  /** `Object.values(Sexes)`. */
  const SEXES: seq<EnumMember> := ObjectValues(["Male", "Female"], [0.0, 1.0])

  /** `Object.values(ActivityLevels)`. */
  const ACTIVITY_LEVELS: seq<EnumMember> :=
    ObjectValues(["Sedentary", "LightlyActive", "ModeratelyActive", "VeryActive", "ExtremelyActive"],
                 [0.0, 1.0, 2.0, 3.0, 4.0])

  /** `Object.values(WeightGoals)`. */
  const WEIGHT_GOALS: seq<EnumMember> :=
    ObjectValues(["fastLoss", "moderateLoss", "slowLoss", "maintain", "slowGain", "moderateGain", "fastGain"],
                 [0.0, 1.0, 2.0, 3.0, 4.0, 5.0, 6.0])

  /** The `enum` option of `sex`, `activityLevel` and `weightGoal`: the numeric members of each enum. */
  const SEX_VALUES: seq<real> := NumericValues(SEXES)
  const ACTIVITY_LEVEL_VALUES: seq<real> := NumericValues(ACTIVITY_LEVELS)
  const WEIGHT_GOAL_VALUES: seq<real> := NumericValues(WEIGHT_GOALS)

  /** `.filter((value) => typeof value === 'number')`: the numeric members, in their order. */
  function NumericValues(members: seq<EnumMember>): (r: seq<real>)
    ensures |r| <= |members|
  {
    if |members| == 0 then []
    else match members[0]
      case Name(_) => NumericValues(members[1..])
      case Number(x) => [x] + NumericValues(members[1..])
  }

  /** The filter keeps exactly the numeric members and drops every name. */
  lemma {:induction false} NumericValuesExactly(members: seq<EnumMember>)
    ensures forall x :: x in NumericValues(members) <==> Number(x) in members
  {
    if |members| > 0 {
      NumericValuesExactly(members[1..]);
      assert members == [members[0]] + members[1..];
    }
  }

  /** Filtering `Object.values` of an enum gives back exactly its values, in order. */
  lemma {:induction false} FilterRecoversValues(names: seq<string>, values: seq<real>)
    ensures NumericValues(ObjectValues(names, values)) == values
  {
    if |names| > 0 {
      assert ObjectValues(names, values)[0] == Name(names[0]);
      assert ObjectValues(names, values)[1..] == ObjectValues(names[1..], values);
      FilterRecoversValues(names[1..], values);
    } else {
      assert ObjectValues(names, values) == Numbers(values);
      NumbersRecoverValues(values);
    }
  }

  /** The filter keeps every member of a sequence of values. */
  lemma {:induction false} NumbersRecoverValues(values: seq<real>)
    ensures NumericValues(Numbers(values)) == values
  {
    if |values| > 0 {
      assert Numbers(values)[1..] == Numbers(values[1..]);
      NumbersRecoverValues(values[1..]);
    }
  }

  /** `x` is a whole number from 0 to `top`. */
  predicate WholeUpTo(x: real, top: nat)
  {
    0.0 <= x <= top as real && x.Floor as real == x
  }

  /** The whole numbers from 0 to `top`, ascending: the values of an enum numbered from zero. */
  function Range(top: nat): (r: seq<real>)
    ensures |r| == top + 1
  {
    if top == 0 then [0.0] else Range(top - 1) + [top as real]
  }

  /** A value of `Range(top)` is exactly a whole number from 0 to `top`. */
  lemma {:induction false} InRange(x: real, top: nat)
    ensures x in Range(top) <==> WholeUpTo(x, top)
  {
    if top > 0 {
      InRange(x, top - 1);
      if WholeUpTo(x, top) && x != top as real {
        var n := x.Floor;
        assert n < top;
      }
    }
  }

  /** The values `sex` may take: the names `Male` and `Female` are dropped, leaving 0 and 1. */
  lemma SexValues(x: real)
    ensures SEX_VALUES == Range(1)
    ensures x in SEX_VALUES <==> WholeUpTo(x, 1)
  {
    FilterRecoversValues(["Male", "Female"], Range(1));
    InRange(x, 1);
  }

  /** The values `activityLevel` may take: the whole numbers from 0 to 4. */
  lemma ActivityLevelValues(x: real)
    ensures ACTIVITY_LEVEL_VALUES == Range(4)
    ensures x in ACTIVITY_LEVEL_VALUES <==> WholeUpTo(x, 4)
  {
    FilterRecoversValues(["Sedentary", "LightlyActive", "ModeratelyActive", "VeryActive", "ExtremelyActive"], Range(4));
    InRange(x, 4);
  }

  /** The values `weightGoal` may take: the whole numbers from 0 to 6. */
  lemma WeightGoalValues(x: real)
    ensures WEIGHT_GOAL_VALUES == Range(6)
    ensures x in WEIGHT_GOAL_VALUES <==> WholeUpTo(x, 6)
  {
    FilterRecoversValues(["fastLoss", "moderateLoss", "slowLoss", "maintain", "slowGain", "moderateGain", "fastGain"], Range(6));
    InRange(x, 6);
  }

  /** A field value in a document, already of its JSON kind. */
  datatype Value = Num(n: real) | Bool(b: bool) | Str(s: string)

  /** A document: the value at each dotted path that is set (`goals.calories` and so on). */
  type Document = map<string, Value>

  /** What a schema path admits: a number within optional bounds, a number of an enum, a boolean. */
  datatype Rule =
    | NumberRange(min: real, max: real, bounded: bool)
    | NumberEnum(values: seq<real>)
    | Boolean

  /** A required path with its rule. */
  datatype Field = Field(path: string, rule: Rule)

  /** A value satisfies a rule: `min <= n` and, when bounded, `n <= max`; membership; a boolean. */
  predicate Admits(rule: Rule, v: Value)
  {
    match rule
    case NumberRange(min, max, bounded) => v.Num? && min <= v.n && (bounded ==> v.n <= max)
    case NumberEnum(values) => v.Num? && v.n in values
    case Boolean => v.Bool?
  }

  /** A required field holds in a document: the path is set and its value is admitted. */
  predicate Holds(f: Field, doc: Document)
  {
    f.path in doc && Admits(f.rule, doc[f.path])
  }

  /** The paths of `schema` that fail on `doc`, each reported once, as a validation error does. */
  function Violations(schema: seq<Field>, doc: Document): (bad: set<string>)
    ensures forall p :: p in bad <==> exists k :: 0 <= k < |schema| && schema[k].path == p && !Holds(schema[k], doc)
  {
    if |schema| == 0 then {}
    else
      var rest := Violations(schema[1..], doc);
      assert forall k :: 1 <= k < |schema| ==> schema[k] == schema[1..][k - 1];
      (if Holds(schema[0], doc) then {} else {schema[0].path}) + rest
  }

  /** A document validates exactly when every field of the schema holds on it. */
  lemma ValidatesIffAllHold(schema: seq<Field>, doc: Document)
    ensures Violations(schema, doc) == {} <==> forall k :: 0 <= k < |schema| ==> Holds(schema[k], doc)
  {
    if !(forall k :: 0 <= k < |schema| ==> Holds(schema[k], doc)) {
      var k :| 0 <= k < |schema| && !Holds(schema[k], doc);
      assert schema[k].path in Violations(schema, doc);
    }
  }

  /** The fields of the profile schema (`userSchema` without `_id`, `createdAt` and `updatedAt`). */
  const AGE := Field("age", NumberRange(0.0, 150.0, true))
  const SEX := Field("sex", NumberEnum(SEX_VALUES))
  const HEIGHT := Field("height", NumberRange(0.0, 500.0, true))
  const WEIGHT := Field("weight", NumberRange(0.0, 500.0, true))
  const ACTIVITY_LEVEL := Field("activityLevel", NumberEnum(ACTIVITY_LEVEL_VALUES))
  const WEIGHT_GOAL := Field("weightGoal", NumberEnum(WEIGHT_GOAL_VALUES))
  const USE_METRIC := Field("useMetric", Boolean)
  const CALORIES := Field("goals.calories", NumberRange(0.0, 0.0, false))
  const PROTEIN := Field("goals.protein", NumberRange(0.0, 0.0, false))
  const FAT := Field("goals.fat", NumberRange(0.0, 0.0, false))
  const CARBOHYDRATES := Field("goals.carbohydrates", NumberRange(0.0, 0.0, false))

  /** The profile schema. */
  function ProfileSchema(): seq<Field>
  {
    [AGE, SEX, HEIGHT, WEIGHT, ACTIVITY_LEVEL, WEIGHT_GOAL, USE_METRIC, CALORIES, PROTEIN, FAT, CARBOHYDRATES]
  }

  /** A number set at `path` with `lo <= n <= hi`. */
  predicate NumIn(doc: Document, path: string, lo: real, hi: real)
  {
    path in doc && doc[path].Num? && lo <= doc[path].n <= hi
  }

  /** A whole number from 0 to `top` set at `path`. */
  predicate Level(doc: Document, path: string, top: nat)
  {
    path in doc && doc[path].Num? && WholeUpTo(doc[path].n, top)
  }

  /** A number set at `path` with `n >= 0`. */
  predicate NonNegative(doc: Document, path: string)
  {
    path in doc && doc[path].Num? && doc[path].n >= 0.0
  }

  /** Age in [0, 150], height and weight in [0, 500]. */
  predicate BodyBounds(doc: Document)
  {
    NumIn(doc, "age", 0.0, 150.0) && NumIn(doc, "height", 0.0, 500.0) && NumIn(doc, "weight", 0.0, 500.0)
  }

  /** Sex 0 or 1, activity level 0 to 4, weight goal 0 to 6, all whole numbers. */
  predicate EnumBounds(doc: Document)
  {
    Level(doc, "sex", 1) && Level(doc, "activityLevel", 4) && Level(doc, "weightGoal", 6)
  }

  /** `useMetric` a boolean, and the four goals non-negative. */
  predicate PreferenceBounds(doc: Document)
  {
    && "useMetric" in doc && doc["useMetric"].Bool?
    && NonNegative(doc, "goals.calories")
    && NonNegative(doc, "goals.protein")
    && NonNegative(doc, "goals.fat")
    && NonNegative(doc, "goals.carbohydrates")
  }

  /** The explicit bounds of a valid profile, every field set. */
  predicate ProfileBounds(doc: Document)
  {
    BodyBounds(doc) && EnumBounds(doc) && PreferenceBounds(doc)
  }

  /** `sex` holds exactly at 0 and 1. */
  lemma SexHolds(doc: Document)
    ensures Holds(SEX, doc) <==> Level(doc, "sex", 1)
  {
    if "sex" in doc && doc["sex"].Num? { SexValues(doc["sex"].n); }
  }

  /** `activityLevel` holds exactly at the whole numbers from 0 to 4. */
  lemma ActivityLevelHolds(doc: Document)
    ensures Holds(ACTIVITY_LEVEL, doc) <==> Level(doc, "activityLevel", 4)
  {
    if "activityLevel" in doc && doc["activityLevel"].Num? { ActivityLevelValues(doc["activityLevel"].n); }
  }

  /** `weightGoal` holds exactly at the whole numbers from 0 to 6. */
  lemma WeightGoalHolds(doc: Document)
    ensures Holds(WEIGHT_GOAL, doc) <==> Level(doc, "weightGoal", 6)
  {
    if "weightGoal" in doc && doc["weightGoal"].Num? { WeightGoalValues(doc["weightGoal"].n); }
  }

  /**
   * A profile validates exactly when age is in [0, 150], sex is 0 or 1, height and weight are in
   * [0, 500], the activity level is a whole number from 0 to 4, the weight goal one from 0 to 6,
   * `useMetric` is a boolean, and each of the four goals is non-negative; every one must be set.
   */
  lemma ProfileValidation(doc: Document)
    ensures Violations(ProfileSchema(), doc) == {} <==> ProfileBounds(doc)
  {
    ValidatesIffAllHold(ProfileSchema(), doc);
    EachFieldHolds(doc);
    BoundsAreFields(doc);
  }

  /** The explicit bounds say, field by field, what the schema's rules say. */
  lemma BoundsAreFields(doc: Document)
    ensures ProfileBounds(doc) <==>
      Holds(AGE, doc) && Holds(SEX, doc) && Holds(HEIGHT, doc) && Holds(WEIGHT, doc) &&
      Holds(ACTIVITY_LEVEL, doc) && Holds(WEIGHT_GOAL, doc) && Holds(USE_METRIC, doc) && Holds(CALORIES, doc) &&
      Holds(PROTEIN, doc) && Holds(FAT, doc) && Holds(CARBOHYDRATES, doc)
  {
    assert BodyBounds(doc) <==> Holds(AGE, doc) && Holds(HEIGHT, doc) && Holds(WEIGHT, doc);
    assert EnumBounds(doc) <==> Holds(SEX, doc) && Holds(ACTIVITY_LEVEL, doc) && Holds(WEIGHT_GOAL, doc) by {
      SexHolds(doc);
      ActivityLevelHolds(doc);
      WeightGoalHolds(doc);
    }
    assert PreferenceBounds(doc) <==>
      Holds(USE_METRIC, doc) && Holds(CALORIES, doc) && Holds(PROTEIN, doc) && Holds(FAT, doc) && Holds(CARBOHYDRATES, doc);
  }

  /** Every field of the profile schema holds exactly when each of the eleven does. */
  lemma EachFieldHolds(doc: Document)
    ensures (forall k :: 0 <= k < |ProfileSchema()| ==> Holds(ProfileSchema()[k], doc)) <==>
      Holds(AGE, doc) && Holds(SEX, doc) && Holds(HEIGHT, doc) && Holds(WEIGHT, doc) &&
      Holds(ACTIVITY_LEVEL, doc) && Holds(WEIGHT_GOAL, doc) && Holds(USE_METRIC, doc) && Holds(CALORIES, doc) &&
      Holds(PROTEIN, doc) && Holds(FAT, doc) && Holds(CARBOHYDRATES, doc)
  {
    var schema := ProfileSchema();
    if forall k :: 0 <= k < |schema| ==> Holds(schema[k], doc) {
      assert Holds(schema[0], doc) && Holds(schema[1], doc) && Holds(schema[2], doc) && Holds(schema[3], doc);
      assert Holds(schema[4], doc) && Holds(schema[5], doc) && Holds(schema[6], doc) && Holds(schema[7], doc);
      assert Holds(schema[8], doc) && Holds(schema[9], doc) && Holds(schema[10], doc);
    }
    if Holds(AGE, doc) && Holds(SEX, doc) && Holds(HEIGHT, doc) && Holds(WEIGHT, doc) &&
       Holds(ACTIVITY_LEVEL, doc) && Holds(WEIGHT_GOAL, doc) && Holds(USE_METRIC, doc) && Holds(CALORIES, doc) &&
       Holds(PROTEIN, doc) && Holds(FAT, doc) && Holds(CARBOHYDRATES, doc) {
      forall k | 0 <= k < |schema| ensures Holds(schema[k], doc) {
        if k < 6 {
          assert k == 0 || k == 1 || k == 2 || k == 3 || k == 4 || k == 5;
        } else {
          assert k == 6 || k == 7 || k == 8 || k == 9 || k == 10;
        }
      }
    }
  }

  /** A field left unset is always reported, whatever its rule. */
  lemma MissingFieldReported(schema: seq<Field>, doc: Document, k: nat)
    requires k < |schema| && schema[k].path !in doc
    ensures schema[k].path in Violations(schema, doc)
  {
  }
}
