/** `ReportAdmin` (report/admin.py): who may edit a report, which actions a
    user sees, who owns a new report, and the list-display summaries. */
module ReportAdmin {
  import opened Wrappers
  import opened Text
  import opened RegistryModels
  import opened ReportModels

  // ---------------------------------------------------------------------
  // Edit permission
  // ---------------------------------------------------------------------

  /** The owner of a report is the requesting user (model instances compare
      by primary key; a report without an owner matches nobody). */
  predicate OwnedBy(obj: Report, user: User) {
    obj.owner.Some? && obj.owner.value.id == user.id
  }

  /** `has_change_permission(request, obj)`. `profiles` maps a user id to
      the ids of that user's `related_users`; a user without a `UserProfile`
      has no entry. */
  predicate HasChangePermission(user: User, obj: Option<Report>, profiles: map<nat, set<nat>>) {
    if user.isSuperuser then true
    else if obj.None? then true
    else if OwnedBy(obj.value, user) then true
    else if user.id !in profiles then false
    else obj.value.owner.Some? && obj.value.owner.value.id in profiles[user.id]
  }

  /** A superuser may change every report. */
  lemma SuperuserMayChange(user: User, obj: Option<Report>, profiles: map<nat, set<nat>>)
    requires user.isSuperuser
    ensures HasChangePermission(user, obj, profiles)
  {
  }

  /** The change list (no object) is open to every user. */
  lemma ChangeListOpen(user: User, profiles: map<nat, set<nat>>)
    ensures HasChangePermission(user, None, profiles)
  {
  }

  /** The owner may change the report. */
  lemma OwnerMayChange(user: User, obj: Report, profiles: map<nat, set<nat>>)
    requires OwnedBy(obj, user)
    ensures HasChangePermission(user, Some(obj), profiles)
  {
  }

  /** For an ordinary user and a report owned by someone else, permission is
      exactly membership of the owner in the user's related users; without a
      profile it is denied. */
  lemma OtherOwnerNeedsRelation(user: User, obj: Report, profiles: map<nat, set<nat>>)
    requires !user.isSuperuser && !OwnedBy(obj, user)
    ensures HasChangePermission(user, Some(obj), profiles) <==>
      user.id in profiles && obj.owner.Some? && obj.owner.value.id in profiles[user.id]
    ensures user.id !in profiles ==> !HasChangePermission(user, Some(obj), profiles)
  {
  }

  /** A report without an owner can be changed only by a superuser. */
  lemma OwnerlessOnlySuperuser(user: User, obj: Report, profiles: map<nat, set<nat>>)
    requires obj.owner.None?
    ensures HasChangePermission(user, Some(obj), profiles) <==> user.isSuperuser
  {
  }

  /** Relating more users never takes a permission away. */
  lemma MoreRelatedUsersMonotone(user: User, obj: Option<Report>, profiles: map<nat, set<nat>>, extra: set<nat>)
    requires HasChangePermission(user, obj, profiles)
    ensures HasChangePermission(user, obj, profiles[user.id := (if user.id in profiles then profiles[user.id] else {}) + extra])
  {
  }

  // ---------------------------------------------------------------------
  // Actions
  // ---------------------------------------------------------------------

  const GroupedExportAction: string := "export_grouped_report"
  const GroupedExportUsers: set<string> := {"admin", "admin1"}

  /** `get_actions`: the inherited actions, without the grouped export for
      users outside the allowed usernames. `inherited` maps each action name
      to its description. */
  method GetActions(username: string, inherited: map<string, string>) returns (actions: map<string, string>)
    ensures forall name :: name in actions <==>
      name in inherited && (name != GroupedExportAction || username in GroupedExportUsers)
    ensures forall name :: name in actions ==> actions[name] == inherited[name]
  {
    actions := inherited;
    if username !in GroupedExportUsers {
      actions := actions - {GroupedExportAction};
    }
  }

  // ---------------------------------------------------------------------
  // Owner on creation
  // ---------------------------------------------------------------------

  /** The report instance the admin saves. */
  class ReportInstance {
    var pk: Option<nat>
    var owner: Option<User>

    constructor (pk: Option<nat>, owner: Option<User>)
      ensures this.pk == pk && this.owner == owner
    {
      this.pk := pk;
      this.owner := owner;
    }
  }

  /** `save_model`: the requesting user becomes the owner only when the
      object has no primary key yet; the save then gives a new row the
      primary key `newPk` the database assigns (ids start at 1). */
  method SaveModel(obj: ReportInstance, user: User, newPk: nat)
    requires newPk != 0
    modifies obj
    ensures !HasPk(old(obj.pk)) ==> obj.owner == Some(user) && obj.pk == Some(newPk)
    ensures HasPk(old(obj.pk)) ==> obj.owner == old(obj.owner) && obj.pk == old(obj.pk)
    ensures HasPk(obj.pk)
  {
    if !HasPk(obj.pk) {
      obj.owner := Some(user);
      obj.pk := Some(newPk);
    }
  }

  /** Whoever edits a report later, its owner stays the user who created
      it, and the change list's owner column shows the creator's username.
      `listed` is the rest of the report as the change list reads it. */
  method CreatorStaysOwner(creator: User, editor: User, newPk: nat, listed: Report)
    returns (owner: Option<User>, column: string)
    requires newPk != 0
    ensures owner == Some(creator)
    ensures column == creator.username
  {
    var obj := new ReportInstance(None, None);
    SaveModel(obj, creator, newPk);
    SaveModel(obj, editor, newPk + 1);
    owner := obj.owner;
    column := GetUsername(listed.(owner := owner));
  }

  // ---------------------------------------------------------------------
  // List-display columns
  // ---------------------------------------------------------------------

  /** `get_username`: the owner's username, or "-". */
  function GetUsername(obj: Report): string {
    if obj.owner.Some? then obj.owner.value.username else "-"
  }

  const NoAssignedTasks: string := "No assigned tasks"
  const NoStoredGoods: string := "No stored goods"
  const NoDate: string := "No date"

  /** One entry of `assigned_tasks_display`: "<workgroup> - <fine> manat". */
  function TaskEntry(t: AssignedTask): (r: string)
    ensures EndsWith(r, " manat") && StartsWith(r, t.workgroupName + " - ")
    ensures |r| >= |t.workgroupName| + 9
    ensures ParseCents(r[|t.workgroupName| + 3 .. |r| - 6]) == t.fineCents
  {
    var r := t.workgroupName + " - " + FineText(t.fineCents) + " manat";
    assert r[|t.workgroupName| + 3 .. |r| - 6] == FineText(t.fineCents);
    r
  }

  function TaskEntries(tasks: seq<AssignedTask>): (r: seq<string>)
    ensures |r| == |tasks| && forall i :: 0 <= i < |r| ==> r[i] == TaskEntry(tasks[i])
  {
    seq(|tasks|, i requires 0 <= i < |tasks| => TaskEntry(tasks[i]))
  }

  /** `assigned_tasks_display`: the entries joined by ", ", or a fixed text
      when the report has no task. */
  function AssignedTasksDisplay(tasks: seq<AssignedTask>): string {
    if |tasks| > 0 then Join(", ", TaskEntries(tasks)) else NoAssignedTasks
  }

  /** The fixed text appears exactly when there is no task, and otherwise
      the text ends with the last task's entry. */
  lemma AssignedTasksDisplayEmpty(tasks: seq<AssignedTask>)
    ensures AssignedTasksDisplay(tasks) == NoAssignedTasks <==> tasks == []
    ensures tasks != [] ==> EndsWith(AssignedTasksDisplay(tasks), TaskEntry(tasks[|tasks| - 1]))
  {
    if tasks != [] {
      var r := AssignedTasksDisplay(tasks);
      var last := TaskEntry(tasks[|tasks| - 1]);
      assert EndsWith(r, last);
      assert EndsWith(last, " manat");
      assert r[|r| - 1] == last[|last| - 1] == 't';
      assert r[|r| - 2] == last[|last| - 2] == 'a';
      assert NoAssignedTasks[|NoAssignedTasks| - 1] == 's';
    }
  }

  /** `formatted_report_date`: the date as dd.mm.yyyy, or "No date". */
  function FormattedReportDate(obj: Report): (r: string)
    ensures obj.reportDate.None? ==> r == NoDate
    ensures obj.reportDate.Some? && ValidDate(obj.reportDate.value) ==>
      |r| == 10 && AllDigits(r[..2]) && AllDigits(r[3..5]) && AllDigits(r[6..])
      && DigitsValue(r[..2]) == obj.reportDate.value.day
      && DigitsValue(r[3..5]) == obj.reportDate.value.month
      && DigitsValue(r[6..]) == obj.reportDate.value.year
  {
    if obj.reportDate.Some? then FormatDate(obj.reportDate.value) else NoDate
  }

  /** A valid date never shows as the fixed text. */
  lemma FormattedDateNeverFixedText(obj: Report)
    requires obj.reportDate.Some? && ValidDate(obj.reportDate.value)
    ensures FormattedReportDate(obj) != NoDate
  {
    assert |NoDate| == 7;
  }

  // ---------------------------------------------------------------------
  // Stored goods with images
  // ---------------------------------------------------------------------

  const MaxImages: nat := 3

  /** What `stored_goods_display` shows of one good: the images it links
      and the number behind the "+N more" link (0 when there is none). */
  datatype GoodSummary = GoodSummary(productName: string, amountCents: int, unitName: string,
                                     shown: seq<string>, more: nat)

  /** The images of a good cut to `MaxImages`, and the overflow count. */
  function Summarize(g: Good): (s: GoodSummary)
    ensures s.productName == g.productName && s.amountCents == g.amountCents && s.unitName == g.unitName
    ensures |s.shown| <= MaxImages && |s.shown| <= |g.imageUrls| && s.shown == g.imageUrls[..|s.shown|]
    ensures |s.shown| == |g.imageUrls| || |s.shown| == MaxImages
    ensures s.more > 0 <==> |g.imageUrls| > MaxImages
    ensures |s.shown| + s.more == |g.imageUrls|
  {
    var n := |g.imageUrls|;
    var shown := if n > MaxImages then g.imageUrls[..MaxImages] else g.imageUrls;
    GoodSummary(g.productName, g.amountCents, g.unitName, shown,
                if n > MaxImages then n - MaxImages else 0)
  }

  /** The fixed pieces of a thumbnail's anchor. */
  const LinkOpen: string := "<a href=\""
  const LinkTarget: string := "\" target=\"_blank\"><img src=\""
  const ThumbStyle: string :=
    "\" style=\"width:50px; height:50px; margin:2px; border:1px solid #ccc; border-radius:4px;\" title=\""
  const LinkClose: string := "\" /></a>"

  /** The anchor around one thumbnail. */
  function ImageLink(url: string, title: string): string {
    LinkOpen + url + LinkTarget + url + ThumbStyle + title + LinkClose
  }

  function ImageLinks(urls: seq<string>, title: string): string
    decreases |urls|
  {
    if urls == [] then "" else ImageLinks(urls[..|urls| - 1], title) + ImageLink(urls[|urls| - 1], title)
  }

  /** The "+N more" link. */
  function MoreLink(more: nat): string {
    " <a href=\"#\" title=\"View more images\">+" + NatToString(more) + " more</a>"
  }

  /** The thumbnails of a summary followed by its "+N more" link. */
  function ImagesHtml(s: GoodSummary): string {
    var links := ImageLinks(s.shown, s.productName);
    if s.more > 0 then links + MoreLink(s.more) else links
  }

  const BlockOpen: string := "<div" + " style='margin-bottom: 5px;'><strong>"
  const BlockClose: string := "</div>"

  /** The block of one good: its product name, amount and unit, then its
      images. */
  function GoodBlock(productName: string, amount: string, unitName: string, images: string): (r: string)
    ensures StartsWith(r, "<div") && EndsWith(r, BlockClose)
  {
    var body := productName + ":</strong> " + amount + " " + unitName + "<br>" + images;
    var r := BlockOpen + body + BlockClose;
    assert r[..4] == BlockOpen[..4];
    assert r[|r| - 6..] == BlockClose;
    r
  }

  function RenderGood(s: GoodSummary): (r: string)
    ensures StartsWith(r, "<div") && EndsWith(r, BlockClose)
  {
    GoodBlock(s.productName, CentsToString(s.amountCents), s.unitName, ImagesHtml(s))
  }

  function GoodsBlocks(goods: seq<Good>): (r: seq<string>)
    ensures |r| == |goods| && forall i :: 0 <= i < |r| ==> r[i] == RenderGood(Summarize(goods[i]))
  {
    seq(|goods|, i requires 0 <= i < |goods| => RenderGood(Summarize(goods[i])))
  }

  /** The text `stored_goods_display` shows: one block per good, in
      order, joined by "<br>"; a fixed text when the report has none. */
  function StoredGoodsText(goods: seq<Good>): string {
    if goods == [] then NoStoredGoods else Join("<br>", GoodsBlocks(goods))
  }

  /** The body of the loop in `stored_goods_display`: the thumbnails of at
      most `MaxImages` images, the "+N more" link when there are more, and
      the block around them. */
  method GoodHtml(g: Good) returns (block: string)
    ensures block == RenderGood(Summarize(g))
  {
    var summary := Summarize(g);
    var images := ImageLinks(summary.shown, summary.productName);
    if summary.more > 0 {
      images := images + MoreLink(summary.more);
    }
    assert images == ImagesHtml(summary);
    block := GoodBlock(summary.productName, CentsToString(summary.amountCents), summary.unitName, images);
  }

  /** `stored_goods_display`. */
  method StoredGoodsDisplay(goods: seq<Good>) returns (html: string)
    ensures html == StoredGoodsText(goods)
  {
    var goodsList: seq<string> := [];
    var i := 0;
    while i < |goods|
      invariant 0 <= i <= |goods| && |goodsList| == i
      invariant forall k :: 0 <= k < i ==> goodsList[k] == RenderGood(Summarize(goods[k]))
    {
      var block := GoodHtml(goods[i]);
      AppendBlock(goods, goodsList, block);
      goodsList := goodsList + [block];
      i := i + 1;
    }
    BlocksOfEachGood(goods, goodsList);
    if goodsList != [] {
      html := Join("<br>", goodsList);
    } else {
      html := NoStoredGoods;
    }
  }

  lemma AppendBlock(goods: seq<Good>, blocks: seq<string>, block: string)
    requires |blocks| < |goods|
    requires forall k :: 0 <= k < |blocks| ==> blocks[k] == RenderGood(Summarize(goods[k]))
    requires block == RenderGood(Summarize(goods[|blocks|]))
    ensures forall k :: 0 <= k < |blocks| + 1 ==> (blocks + [block])[k] == RenderGood(Summarize(goods[k]))
  {
  }

  lemma BlocksOfEachGood(goods: seq<Good>, blocks: seq<string>)
    requires |blocks| == |goods|
    requires forall k :: 0 <= k < |goods| ==> blocks[k] == RenderGood(Summarize(goods[k]))
    ensures blocks == GoodsBlocks(goods)
  {
  }

  /** The fixed text appears exactly when the report has no stored good;
      otherwise the text opens with the first good's block. */
  lemma StoredGoodsTextEmpty(goods: seq<Good>)
    ensures StoredGoodsText(goods) == NoStoredGoods <==> goods == []
    ensures goods != [] ==> StartsWith(StoredGoodsText(goods), RenderGood(Summarize(goods[0])))
  {
    if goods != [] {
      BlocksOpenWithTag(goods);
      assert StoredGoodsText(goods)[0] != NoStoredGoods[0];
    }
  }

  lemma BlocksOpenWithTag(goods: seq<Good>)
    requires goods != []
    ensures StartsWith(Join("<br>", GoodsBlocks(goods)), RenderGood(Summarize(goods[0])))
    ensures Join("<br>", GoodsBlocks(goods))[0] == '<'
  {
    var r := Join("<br>", GoodsBlocks(goods));
    var first := RenderGood(Summarize(goods[0]));
    assert StartsWith(r, first);
  }

  /** A good with at most three images links all of them and has no
      "+N more" link; one with more links the first three and counts the
      rest. */
  lemma SummaryCases(g: Good)
    ensures |g.imageUrls| <= MaxImages ==> Summarize(g).shown == g.imageUrls && Summarize(g).more == 0
    ensures |g.imageUrls| > MaxImages ==>
      Summarize(g).shown == g.imageUrls[..3] && Summarize(g).more == |g.imageUrls| - 3
  {
  }
}
