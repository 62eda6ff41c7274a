/** The DashScope model table and its lookup by id. */
module DashScopeModels {
  import opened Wrappers

  datatype DashScopeModel = DashScopeModel(id: string, name: string, description: string)

  /** The text models offered for contract auditing, the default first. */
  const DASHSCOPE_MODELS: seq<DashScopeModel> := [
    DashScopeModel("qwen3-coder-plus", "Qwen3 Coder Plus", "Code-specialized, ideal for contract audit"),
    DashScopeModel("qwen3-max", "Qwen3 Max", "Flagship model, most powerful"),
    DashScopeModel("qwen-plus", "Qwen Plus", "Balanced performance & cost"),
    DashScopeModel("qwen-flash", "Qwen Flash", "Fast & efficient, good for testing"),
    DashScopeModel("qwen3-coder-flash", "Qwen3 Coder Flash", "Code-specialized, fast")
  ]

  /** `Array.prototype.find` on the id: the first entry with that id. */
  function FindById(ms: seq<DashScopeModel>, id: string): (r: Option<DashScopeModel>)
    ensures r.None? <==> forall m :: m in ms ==> m.id != id
    ensures r.Some? ==> r.value.id == id && r.value in ms
    ensures r.Some? ==> exists i :: 0 <= i < |ms| && ms[i] == r.value && forall k :: 0 <= k < i ==> ms[k].id != id
  {
    if ms == [] then None
    else if ms[0].id == id then
      assert ms[0] == ms[0];
      Some(ms[0])
    else
      var r := FindById(ms[1..], id);
      if r.Some? then
        var i :| 0 <= i < |ms[1..]| && ms[1..][i] == r.value && forall k :: 0 <= k < i ==> ms[1..][k].id != id;
        assert ms[i + 1] == r.value;
        r
      else r
  }

  /** `getDashScopeModelById`. */
  function GetDashScopeModelById(id: string): (r: Option<DashScopeModel>)
    ensures r.None? <==> forall m :: m in DASHSCOPE_MODELS ==> m.id != id
    ensures r.Some? ==> r.value.id == id && r.value in DASHSCOPE_MODELS
    ensures r.Some? ==> exists i :: (0 <= i < |DASHSCOPE_MODELS| && DASHSCOPE_MODELS[i] == r.value
                                     && forall k :: 0 <= k < i ==> DASHSCOPE_MODELS[k].id != id)
  {
    FindById(DASHSCOPE_MODELS, id)
  }

  /** The table has five entries with distinct ids, `qwen3-coder-plus` first. */
  lemma TableShape()
    ensures |DASHSCOPE_MODELS| == 5
    ensures DASHSCOPE_MODELS[0].id == "qwen3-coder-plus"
    ensures forall i, j :: 0 <= i < j < |DASHSCOPE_MODELS| ==> DASHSCOPE_MODELS[i].id != DASHSCOPE_MODELS[j].id
  {
    var ids := ["qwen3-coder-plus", "qwen3-max", "qwen-plus", "qwen-flash", "qwen3-coder-flash"];
    assert forall i :: 0 <= i < 5 ==> DASHSCOPE_MODELS[i].id == ids[i];
    assert ids[0][4] == '3' && ids[1][4] == '3' && ids[2][4] == '-' && ids[3][4] == '-' && ids[4][4] == '3';
    assert ids[2][5] == 'p' && ids[3][5] == 'f';
    assert ids[0][6] == 'c' && ids[1][6] == 'm' && ids[4][6] == 'c';
    assert |ids[0]| != |ids[4]|;
  }

  /** Looking up the id of an entry finds that very entry. */
  lemma LookupEntry(i: nat)
    requires i < |DASHSCOPE_MODELS|
    ensures GetDashScopeModelById(DASHSCOPE_MODELS[i].id) == Some(DASHSCOPE_MODELS[i])
  {
    TableShape();
    var r := GetDashScopeModelById(DASHSCOPE_MODELS[i].id);
    assert DASHSCOPE_MODELS[i] in DASHSCOPE_MODELS;
    var j :| 0 <= j < |DASHSCOPE_MODELS| && DASHSCOPE_MODELS[j] == r.value
      && forall k :: 0 <= k < j ==> DASHSCOPE_MODELS[k].id != DASHSCOPE_MODELS[i].id;
    assert j == i;
  }
}
