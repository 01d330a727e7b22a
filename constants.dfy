/** The lookup tables shared by the farm map: species to group, and category to stroke colour. */
module Constants {
  import opened Wrappers

  /** `typeToGroup`: the filter-panel group of a livestock type, when the table lists it. */
  function TypeToGroup(t: string): (r: Option<string>)
    ensures r.Some? <==> t in {"한우", "육우", "젖소", "돼지", "종계/산란계", "육계", "오리"}
    ensures r == Some("소") <==> t in {"한우", "육우", "젖소"}
    ensures r == Some("닭") <==> t in {"종계/산란계", "육계"}
  {
    if t == "한우" || t == "육우" || t == "젖소" then Some("소")
    else if t == "돼지" then Some("돼지")
    else if t == "종계/산란계" || t == "육계" then Some("닭")
    else if t == "오리" then Some("오리")
    else None
  }

  /** `odorColorMap[cat].stroke`. */
  function OdorColor(category: string): (r: Option<string>)
    ensures r.Some? <==> category in {"닭", "소", "돼지", "사슴", "기타"}
  {
    if category == "닭" then Some("#FFA500")
    else if category == "소" then Some("#1E90FF")
    else if category == "돼지" then Some("#FF69B4")
    else if category == "사슴" then Some("#32CD32")
    else if category == "기타" then Some("#8884FF")
    else None
  }
}
