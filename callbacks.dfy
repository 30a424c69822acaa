/**
  Button presses (client.py:57-70). Every press is acknowledged; a payload
  that starts with `show` followed by text Python's `int()` accepts edits
  the pressed message into the project page for that id. Any other payload,
  the like button's among them, changes nothing.
*/
module Callbacks {
  import opened Wrappers
  import opened PyInt
  import opened Keyboard
  import opened Pages

  const ShowPrefix := "show"

  /** The id a payload asks to show: `int(data[4:])` after `data.startswith("show")`. */
  function ShowTarget(data: string): Option<int> {
    if |data| >= 4 && data[..4] == ShowPrefix then ParseInt(data[4..]) else None
  }

  /** The page `make_params_for_project_message(id)` builds from the project table. */
  function PageFor(table: seq<Project>, id: int): Payload {
    ProjectPage(FetchNeighbourhood(table, id), id)
  }

  /** `handle_button_callback`: the new content of the pressed message, if it is edited. */
  function HandleButtonCallback(data: string, table: seq<Project>): Option<Payload> {
    match ShowTarget(data)
    case None => None
    case Some(id) => Some(PageFor(table, id))
  }

  /** The payload of every navigation button parses back to the id it was built from. */
  lemma ShowDataRoundTrip(id: int)
    ensures ShowTarget(ShowData(id)) == Some(id)
  {
    var d := ShowData(id);
    assert d[..4] == ShowPrefix && d[4..] == FormatInt(id);
    ParseFormatRoundTrip(id);
  }

  /** The like button's payload is not a `show` payload: pressing it edits nothing. */
  lemma LikeDataIgnored(id: int, table: seq<Project>)
    ensures ShowTarget(LikeData(id)) == None
    ensures HandleButtonCallback(LikeData(id), table) == None
  {
    var d := LikeData(id);
    assert d[0] == 'l';
  }

  /** Every `show` payload Python reads as an integer opens the page of that integer. */
  lemma ShowTargetAccepts(lead: string, sign: string, g: string, trail: string)
    requires AllSpace(lead) && AllSpace(trail)
    requires IsSign(sign) && Grouped(g)
    ensures ShowTarget(ShowPrefix + lead + sign + g + trail) == Some(Signed(sign, Value(g)))
  {
    var d := ShowPrefix + lead + sign + g + trail;
    assert d[..4] == ShowPrefix && d[4..] == lead + sign + g + trail;
    ParseIntAccepts(lead, sign, g, trail);
  }

  /** And only those: a payload that opens a page is `show`, then text `int()` accepts. */
  lemma ShowTargetSound(data: string) returns (lead: string, sign: string, g: string, trail: string)
    requires ShowTarget(data).Some?
    ensures data == ShowPrefix + lead + sign + g + trail
    ensures AllSpace(lead) && AllSpace(trail)
    ensures IsSign(sign) && Grouped(g)
  {
    var rest := data[4..];
    assert data == ShowPrefix + rest;
    lead, sign, g, trail := ParseIntSound(rest);
  }

  /** A payload without the `show` prefix edits nothing. */
  lemma OtherPayloadIgnored(data: string, table: seq<Project>)
    requires |data| < 4 || data[..4] != ShowPrefix
    ensures HandleButtonCallback(data, table) == None
  {
  }

  /**
    A file separator (U+001C) is not whitespace to `int()`, although
    `str.isspace` holds for it: `show` followed by it and a digit edits
    nothing.
  */
  lemma SeparatorPayloadIgnored(table: seq<Project>)
    ensures HandleButtonCallback("show\U{1C}1", table) == None
  {
    var d := "show\U{1C}1";
    assert d[..4] == ShowPrefix && d[4..] == "\U{1C}1";
    ParseIntRejects("\U{1C}1");
  }

  /** Where a button with this label is meant to lead from the page for `id`. */
  function LabelTarget(text: string, id: int): Option<int> {
    if text == LikeLabel then None
    else if text == PrevLabel then Some(id - 1)
    else if text == NextLabel then Some(id + 1)
    else Some(id)
  }

  ghost predicate LeadsWhereLabelled(b: Button, id: int) {
    ShowTarget(b.callbackData) == LabelTarget(b.text, id)
  }

  /** The three buttons a navigation row can hold each lead where their labels say. */
  lemma NavigationTargets(id: int)
    ensures LeadsWhereLabelled(Button(PrevLabel, ShowData(id - 1)), id)
    ensures LeadsWhereLabelled(Button(LikeLabel, LikeData(id)), id)
    ensures LeadsWhereLabelled(Button(NextLabel, ShowData(id + 1)), id)
  {
    ShowDataRoundTrip(id - 1);
    LikeDataIgnored(id, []);
    ShowDataRoundTrip(id + 1);
  }

  lemma NavigationButtonsNavigate(rows: seq<Project>, id: int)
    ensures forall b :: b in ToButtons(NavigationRow(rows, id)) ==> LeadsWhereLabelled(b, id)
  {
    NavigationTargets(id);
    var nav := NavigationRow(rows, id);
    var bs := ToButtons(nav);
    forall b | b in bs
      ensures || b == Button(PrevLabel, ShowData(id - 1))
              || b == Button(LikeLabel, LikeData(id))
              || b == Button(NextLabel, ShowData(id + 1))
    {
      var j :| 0 <= j < |bs| && bs[j] == b;
      assert nav[j] in nav;
    }
  }

  /**
    The buttons of the page for `id` lead where their labels say: `<` to
    the page for id - 1, `>` to id + 1, refresh to the same id, and the
    like button nowhere.
  */
  lemma PageButtonsNavigate(table: seq<Project>, id: int)
    ensures var markup := PageFor(table, id).replyMarkup;
      forall i, j :: 0 <= i < |markup| && 0 <= j < |markup[i]| ==> LeadsWhereLabelled(markup[i][j], id)
  {
    var rows := FetchNeighbourhood(table, id);
    if HasId(rows, id) {
      FoundPageLayout(rows, id);
      NavigationButtonsNavigate(rows, id);
    } else {
      EmptyPage(rows, id);
      ShowDataRoundTrip(id);
    }
  }

  /**
    Refresh on the empty page: with no write in between, pressing it asks
    for the very page it is on.
  */
  lemma RefreshIsIdempotent(table: seq<Project>, id: int)
    requires !HasId(FetchNeighbourhood(table, id), id)
    ensures PageFor(table, id).replyMarkup == [[Button(RefreshLabel, ShowData(id))]]
    ensures HandleButtonCallback(ShowData(id), table) == Some(PageFor(table, id))
  {
    EmptyPage(FetchNeighbourhood(table, id), id);
    ShowDataRoundTrip(id);
  }
}
