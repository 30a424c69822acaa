/**
  The project page (client.py:73-103): the message text and buttons shown
  for the project with a given id, built from the rows the store returns
  for the ids `id - 1`, `id` and `id + 1`.
*/
module Pages {
  import opened Wrappers
  import opened PyInt
  import opened Keyboard

  /** A row of the `project` table (models.py:15-19). */
  datatype Project = Project(id: int, name: string, description: string, creatorId: int)

  /** The keyword arguments handed to `edit_message_text` or `reply`. */
  datatype Payload = Payload(text: string, replyMarkup: Markup, parseMode: Option<string>)

  const EmptyText := "Пока что проектов нет!"
  const RefreshLabel := "Обновить"
  const LikeLabel := "Мне нравится"
  const PrevLabel := "<"
  const NextLabel := ">"
  const Html := "HTML"

  /** `f"show{id}"`: the callback data of a button that opens page `id`. */
  function ShowData(id: int): string {
    "show" + FormatInt(id)
  }

  /** `f"like{id}"`: the callback data of the like button of page `id`. */
  function LikeData(id: int): string {
    "like" + FormatInt(id)
  }

  /** Some row has this id. */
  function HasId(rows: seq<Project>, id: int): bool {
    if rows == [] then false
    else rows[|rows| - 1].id == id || HasId(rows[..|rows| - 1], id)
  }

  /** The last row with this id: the one the loop of client.py:82-88 leaves in `current`. */
  function Lookup(rows: seq<Project>, id: int): Option<Project> {
    if rows == [] then None
    else if rows[|rows| - 1].id == id then Some(rows[|rows| - 1])
    else Lookup(rows[..|rows| - 1], id)
  }

  lemma {:induction false} HasIdMeans(rows: seq<Project>, id: int)
    ensures HasId(rows, id) <==> exists k :: 0 <= k < |rows| && rows[k].id == id
  {
    if rows != [] {
      var init := rows[..|rows| - 1];
      HasIdMeans(init, id);
      if HasId(init, id) {
        var k :| 0 <= k < |init| && init[k].id == id;
        assert rows[k] == init[k];
      }
      if k :| 0 <= k < |rows| - 1 && rows[k].id == id {
        assert init[k] == rows[k];
      }
    }
  }

  /** `Lookup` finds a row exactly when one has the id, and then it is the last such row. */
  lemma {:induction false} LookupMeans(rows: seq<Project>, id: int)
    ensures Lookup(rows, id).None? <==> !HasId(rows, id)
    ensures Lookup(rows, id).Some? ==>
      exists k :: 0 <= k < |rows| && rows[k] == Lookup(rows, id).value && rows[k].id == id
                  && forall j :: k < j < |rows| ==> rows[j].id != id
  {
    if rows != [] && rows[|rows| - 1].id != id {
      var init := rows[..|rows| - 1];
      LookupMeans(init, id);
      if Lookup(init, id).Some? {
        var k :| 0 <= k < |init| && init[k] == Lookup(init, id).value && init[k].id == id
                 && forall j :: k < j < |init| ==> init[j].id != id;
        assert rows[k] == init[k];
      }
    }
  }

  /** `f"<b>{name}</b>\n{description}"`. */
  function Caption(p: Project): string {
    "<b>" + p.name + "</b>\n" + p.description
  }

  /** The `buttons` list of client.py:94-98. */
  function NavigationRow(rows: seq<Project>, id: int): seq<(string, string)> {
    (if HasId(rows, id - 1) then [(PrevLabel, ShowData(id - 1))] else [])
    + [(LikeLabel, LikeData(id))]
    + (if HasId(rows, id + 1) then [(NextLabel, ShowData(id + 1))] else [])
  }

  /** What `make_params_for_project_message` returns for these fetched rows. */
  function ProjectPage(rows: seq<Project>, id: int): Payload {
    match Lookup(rows, id)
    case None => Payload(EmptyText, Layout([[(RefreshLabel, ShowData(id))]]), None)
    case Some(p) => Payload(Caption(p), Layout([NavigationRow(rows, id)]), Some(Html))
  }

  /** `select(Project).filter(Project.id.in_([id - 1, id, id + 1]))` over the table's rows. */
  function FetchNeighbourhood(table: seq<Project>, id: int): (rows: seq<Project>)
    ensures forall p :: p in rows <==> p in table && id - 1 <= p.id <= id + 1
  {
    if table == [] then []
    else
      var last := table[|table| - 1];
      FetchNeighbourhood(table[..|table| - 1], id) + (if id - 1 <= last.id <= id + 1 then [last] else [])
  }

  /** `make_params_for_project_message(project_id)` once the query has returned `projects`. */
  method MakeParamsForProjectMessage(projects: seq<Project>, projectId: int) returns (params: Payload)
    ensures params == ProjectPage(projects, projectId)
  {
    var prev: Option<(string, string)> := None;
    var current: Option<Project> := None;
    var next: Option<(string, string)> := None;
    var i := 0;
    while i < |projects|
      invariant 0 <= i <= |projects|
      invariant prev == if HasId(projects[..i], projectId - 1) then Some((PrevLabel, ShowData(projectId - 1))) else None
      invariant next == if HasId(projects[..i], projectId + 1) then Some((NextLabel, ShowData(projectId + 1))) else None
      invariant current == Lookup(projects[..i], projectId)
    {
      PrefixStep(projects, i, projectId - 1);
      PrefixStep(projects, i, projectId + 1);
      PrefixStep(projects, i, projectId);
      var project := projects[i];
      if project.id == projectId - 1 {
        prev := Some((PrevLabel, ShowData(project.id)));
      }
      if project.id == projectId + 1 {
        next := Some((NextLabel, ShowData(project.id)));
      }
      if project.id == projectId {
        current := Some(project);
      }
      i := i + 1;
    }
    assert projects[..|projects|] == projects;
    if current.None? {
      var keyboard := MakeInlineKeyboard([[(RefreshLabel, ShowData(projectId))]]);
      params := Payload(EmptyText, keyboard, None);
      return;
    }
    var buttons: seq<(string, string)> := [];
    if prev.Some? {
      buttons := buttons + [prev.value];
    }
    buttons := buttons + [(LikeLabel, LikeData(projectId))];
    if next.Some? {
      buttons := buttons + [next.value];
    }
    assert buttons == NavigationRow(projects, projectId);
    var keyboard := MakeInlineKeyboard([buttons]);
    params := Payload(Caption(current.value), keyboard, Some(Html));
  }

  lemma PrefixStep(rows: seq<Project>, i: nat, x: int)
    requires i < |rows|
    ensures HasId(rows[..i + 1], x) == (HasId(rows[..i], x) || rows[i].id == x)
    ensures Lookup(rows[..i + 1], x) == if rows[i].id == x then Some(rows[i]) else Lookup(rows[..i], x)
  {
    assert rows[..i + 1][..i] == rows[..i];
  }

  /**
    No row with the id: the empty-page text, no parse mode, and a single
    "refresh" button whose data names the same id.
  */
  lemma EmptyPage(rows: seq<Project>, id: int)
    requires !HasId(rows, id)
    ensures ProjectPage(rows, id).text == EmptyText
    ensures ProjectPage(rows, id).parseMode == None
    ensures ProjectPage(rows, id).replyMarkup == [[Button(RefreshLabel, ShowData(id))]]
  {
    LookupMeans(rows, id);
    var refresh := [[(RefreshLabel, ShowData(id))]];
    assert FitInOneRow(refresh);
    LayoutRowPerRow(refresh);
    assert ToButtons(refresh[0]) == [Button(RefreshLabel, ShowData(id))];
  }

  lemma {:induction false} FoundPageLayout(rows: seq<Project>, id: int)
    requires HasId(rows, id)
    ensures |ProjectPage(rows, id).replyMarkup| == 1
    ensures ProjectPage(rows, id).replyMarkup[0] == ToButtons(NavigationRow(rows, id))
  {
    LookupMeans(rows, id);
    var nav := NavigationRow(rows, id);
    assert 0 < |nav| <= RowWidth;
    assert FitInOneRow([nav]);
    LayoutRowPerRow([nav]);
  }

  /**
    A found project: its caption with the name in bold, HTML parse mode, and
    one row of one to three buttons: `<` first exactly when id - 1 exists,
    the like button for the id, `>` last exactly when id + 1 exists.
  */
  lemma FoundPage(rows: seq<Project>, id: int, p: Project)
    requires Lookup(rows, id) == Some(p)
    ensures p in rows && p.id == id
    ensures ProjectPage(rows, id).text == "<b>" + p.name + "</b>\n" + p.description
    ensures ProjectPage(rows, id).parseMode == Some(Html)
    ensures |ProjectPage(rows, id).replyMarkup| == 1
    ensures var row := ProjectPage(rows, id).replyMarkup[0];
      && |row| == 1 + (if HasId(rows, id - 1) then 1 else 0) + (if HasId(rows, id + 1) then 1 else 0)
      && (HasId(rows, id - 1) <==> row[0] == Button(PrevLabel, ShowData(id - 1)))
      && (HasId(rows, id + 1) <==> row[|row| - 1] == Button(NextLabel, ShowData(id + 1)))
      && row[if HasId(rows, id - 1) then 1 else 0] == Button(LikeLabel, LikeData(id))
  {
    LookupMeans(rows, id);
    FoundPageLayout(rows, id);
  }

  /** The like button of a found page is always there. */
  lemma FoundPageHasLike(rows: seq<Project>, id: int)
    requires HasId(rows, id)
    ensures Button(LikeLabel, LikeData(id)) in ProjectPage(rows, id).replyMarkup[0]
  {
    LookupMeans(rows, id);
    var p := Lookup(rows, id).value;
    FoundPage(rows, id, p);
    var row := ProjectPage(rows, id).replyMarkup[0];
    assert row[if HasId(rows, id - 1) then 1 else 0] == Button(LikeLabel, LikeData(id));
  }

  /** Only the rows with id - 1, id or id + 1 matter: the page of the whole table is that of the fetched rows. */
  lemma {:induction false} NeighbourhoodSuffices(table: seq<Project>, id: int)
    ensures ProjectPage(FetchNeighbourhood(table, id), id) == ProjectPage(table, id)
  {
    FetchKeepsIds(table, id, id - 1);
    FetchKeepsIds(table, id, id + 1);
    FetchKeepsLookup(table, id);
  }

  lemma FetchKeepsIds(table: seq<Project>, id: int, x: int)
    requires id - 1 <= x <= id + 1
    ensures HasId(FetchNeighbourhood(table, id), x) == HasId(table, x)
  {
    var rows := FetchNeighbourhood(table, id);
    HasIdMeans(table, x);
    HasIdMeans(rows, x);
    if HasId(table, x) {
      var k :| 0 <= k < |table| && table[k].id == x;
      assert table[k] in rows;
      var j :| 0 <= j < |rows| && rows[j] == table[k];
    }
    if HasId(rows, x) {
      var j :| 0 <= j < |rows| && rows[j].id == x;
      assert rows[j] in table;
    }
  }

  lemma {:induction false} FetchKeepsLookup(table: seq<Project>, id: int)
    ensures Lookup(FetchNeighbourhood(table, id), id) == Lookup(table, id)
  {
    if table != [] {
      var init, last := table[..|table| - 1], table[|table| - 1];
      FetchKeepsLookup(init, id);
      var f := FetchNeighbourhood(init, id);
      if id - 1 <= last.id <= id + 1 {
        assert (f + [last])[..|f|] == f;
      } else {
        assert f + [] == f;
      }
    }
  }

  /** Table ids are a primary key. */
  ghost predicate UniqueIds(rows: seq<Project>) {
    forall i, j :: 0 <= i < |rows| && 0 <= j < |rows| && rows[i].id == rows[j].id ==> i == j
  }

  lemma LookupUnique(rows: seq<Project>, id: int, p: Project)
    requires UniqueIds(rows)
    ensures Lookup(rows, id) == Some(p) <==> p in rows && p.id == id
  {
    HasIdMeans(rows, id);
    LookupMeans(rows, id);
    if p in rows && p.id == id {
      var k :| 0 <= k < |rows| && rows[k] == p;
      assert HasId(rows, id);
      var q := Lookup(rows, id).value;
      var k' :| 0 <= k' < |rows| && rows[k'] == q && q.id == id;
    }
  }

  /**
    With unique ids the page does not depend on the order in which the store
    returns the rows, only on which rows it returns.
  */
  lemma PageIgnoresRowOrder(rows: seq<Project>, rows': seq<Project>, id: int)
    requires UniqueIds(rows) && UniqueIds(rows')
    requires forall p :: p in rows <==> p in rows'
    ensures ProjectPage(rows, id) == ProjectPage(rows', id)
  {
    forall x ensures HasId(rows, x) == HasId(rows', x) {
      HasIdMeans(rows, x);
      HasIdMeans(rows', x);
      if HasId(rows, x) {
        var k :| 0 <= k < |rows| && rows[k].id == x;
        assert rows[k] in rows';
      }
      if HasId(rows', x) {
        var k :| 0 <= k < |rows'| && rows'[k].id == x;
        assert rows'[k] in rows;
      }
    }
    LookupMeans(rows, id);
    LookupMeans(rows', id);
    if Lookup(rows, id).Some? {
      var p := Lookup(rows, id).value;
      LookupUnique(rows, id, p);
      LookupUnique(rows', id, p);
    }
  }
}
