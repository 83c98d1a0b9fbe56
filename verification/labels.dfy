/** Key translation tables of the dining list: `labelCuisine`, `labelDiet` (display labels of the
    data's cuisine and diet values) and `toDiet`, `toCui` (filter-chip keys to data values). */
module Labels {
  import opened Wrappers
  import opened Strings

  const CuisineLabels: map<string, string> :=
    map["local" := "Local fish & rice", "american" := "American-style", "pan-asian" := "Pan-Asian"]

  const DietLabels: map<string, string> :=
    map["vegetarian" := "Vegetarian", "vegan" := "Vegan", "gluten-free" := "Gluten-free"]

  const DietPrefix: string := "diet-"
  const CuisinePrefix: string := "cui-"

  /** The keys of the dining toolbar's chips, with the data value each stands for. */
  const DietKeys: map<string, string> :=
    map["diet-vegetarian" := "vegetarian", "diet-vegan" := "vegan", "diet-gluten-free" := "gluten-free"]
  const CuisineKeys: map<string, string> :=
    map["cui-local" := "local", "cui-american" := "american", "cui-pan-asian" := "pan-asian"]

  /** `labels[key] || key`: the label of a known key (when that label is not empty), else the key itself. */
  function LabelOr(labels: map<string, string>, key: string): (r: string)
    ensures key !in labels ==> r == key
    ensures key in labels && labels[key] != "" ==> r == labels[key]
  {
    if key in labels && labels[key] != "" then labels[key] else key
  }

  /** `labelCuisine(key)` */
  function LabelCuisine(key: string): (r: string)
    ensures key !in CuisineLabels ==> r == key
    ensures key in CuisineLabels ==> r == CuisineLabels[key] && r != key
  {
    LabelOr(CuisineLabels, key)
  }

  /** `labelDiet(key)` */
  function LabelDiet(key: string): (r: string)
    ensures key !in DietLabels ==> r == key
    ensures key in DietLabels ==> r == DietLabels[key] && r != key
  {
    LabelOr(DietLabels, key)
  }

  /** `keys.map(labelCuisine)` */
  function CuisineLabelsOf(keys: seq<string>): (r: seq<string>)
    ensures |r| == |keys| && forall i :: 0 <= i < |r| ==> r[i] == LabelCuisine(keys[i])
  {
    seq(|keys|, i requires 0 <= i < |keys| => LabelCuisine(keys[i]))
  }

  /** `keys.map(labelDiet)` */
  function DietLabelsOf(keys: seq<string>): (r: seq<string>)
    ensures |r| == |keys| && forall i :: 0 <= i < |r| ==> r[i] == LabelDiet(keys[i])
  {
    seq(|keys|, i requires 0 <= i < |keys| => LabelDiet(keys[i]))
  }

  /** `toDiet(k)`: the diet value a chip key stands for; `undefined` for any other key. */
  function ToDiet(k: string): (r: Option<string>)
    ensures r.Some? <==> k in DietKeys
    ensures r.Some? ==> k == DietPrefix + r.value && r.value in DietLabels
  {
    if k in DietKeys then Some(DietKeys[k]) else None
  }

  /** `toCui(k)`: the cuisine value a chip key stands for; `undefined` for any other key. */
  function ToCui(k: string): (r: Option<string>)
    ensures r.Some? <==> k in CuisineKeys
    ensures r.Some? ==> k == CuisinePrefix + r.value && r.value in CuisineLabels
  {
    if k in CuisineKeys then Some(CuisineKeys[k]) else None
  }
}
