/** The team directory (src/constants/teams.ts): the ten league teams and the
    lookup by code. */
module Teams {
  import opened Common
  import opened Types

  /** The league's teams, in the order the application lists them. */
  const TEAMS: seq<Team> := [
    Team("SSG", "SSG 랜더스", "#E41E2B", "/teams/ssg.svg"),
    Team("LG", "LG 트윈스", "#C30452", "/teams/lg.svg"),
    Team("KT", "KT 위즈", "#FF6600", "/teams/kt.svg"),
    Team("KIA", "KIA 타이거즈", "#EA0029", "/teams/kia.svg"),
    Team("NC", "NC 다이노스", "#315288", "/teams/nc.svg"),
    Team("DOOSAN", "두산 베어스", "#131230", "/teams/doosan.svg"),
    Team("SAMSUNG", "삼성 라이온즈", "#074CA1", "/teams/samsung.svg"),
    Team("LOTTE", "롯데 자이언츠", "#041E42", "/teams/lotte.svg"),
    Team("KIWOOM", "키움 히어로즈", "#570514", "/teams/kiwoom.svg"),
    Team("HANWHA", "한화 이글스", "#FF6600", "/teams/hanwha.svg")
  ]

  /** No two teams of ts share a code. */
  predicate CodesDistinct(ts: seq<Team>) {
    forall i, j :: 0 <= i < j < |ts| ==> ts[i].code != ts[j].code
  }

  /** The directory has ten teams with pairwise distinct codes, and SSG comes first. */
  lemma TeamsTable()
    ensures |TEAMS| == 10
    ensures TEAMS[0].code == "SSG"
    ensures CodesDistinct(TEAMS)
  {
  }

  /** `ts.find(t => t.code === code)`: the first team with that code, if any. */
  function FindByCode(ts: seq<Team>, code: string): (r: Option<Team>)
    ensures r.None? <==> forall i :: 0 <= i < |ts| ==> ts[i].code != code
    ensures r.Some? ==> exists i :: 0 <= i < |ts| && ts[i] == r.value && r.value.code == code
                                    && forall j :: 0 <= j < i ==> ts[j].code != code
  {
    if ts == [] then None
    else if ts[0].code == code then Some(ts[0])
    else FindByCode(ts[1..], code)
  }

  /** `getTeamByCode(code)`: the team in the directory with that code, if any. */
  function GetTeamByCode(code: string): (r: Option<Team>)
    ensures r.Some? ==> r.value in TEAMS && r.value.code == code
    ensures r.None? <==> forall i :: 0 <= i < |TEAMS| ==> TEAMS[i].code != code
  {
    FindByCode(TEAMS, code)
  }

  /** Since codes are distinct, looking up a team's code returns that very team. */
  lemma GetTeamByCodeUnique(i: nat)
    requires i < |TEAMS|
    ensures GetTeamByCode(TEAMS[i].code) == Some(TEAMS[i])
  {
    TeamsTable();
    var r := GetTeamByCode(TEAMS[i].code);
    var k :| 0 <= k < |TEAMS| && TEAMS[k] == r.value && forall j :: 0 <= j < k ==> TEAMS[j].code != TEAMS[i].code;
    assert k == i;
  }

  /** A lookup of a code present in the directory succeeds. */
  predicate HasCode(code: string) {
    exists i :: 0 <= i < |TEAMS| && TEAMS[i].code == code
  }

  /** Every one of the ten codes is in the directory. */
  lemma AllCodesPresent()
    ensures HasCode("SSG") && HasCode("LG") && HasCode("KT") && HasCode("KIA") && HasCode("NC")
    ensures HasCode("DOOSAN") && HasCode("SAMSUNG") && HasCode("LOTTE") && HasCode("KIWOOM") && HasCode("HANWHA")
  {
    assert TEAMS[0].code == "SSG" && TEAMS[1].code == "LG" && TEAMS[2].code == "KT";
    assert TEAMS[3].code == "KIA" && TEAMS[4].code == "NC" && TEAMS[5].code == "DOOSAN";
    assert TEAMS[6].code == "SAMSUNG" && TEAMS[7].code == "LOTTE" && TEAMS[8].code == "KIWOOM";
    assert TEAMS[9].code == "HANWHA";
  }

  /** `TEAMS.find((t) => t.code === code)!` for a code the directory holds. */
  function TeamWithCode(code: string): (t: Team)
    requires HasCode(code)
    ensures t in TEAMS && t.code == code
  {
    GetTeamByCode(code).value
  }
}
