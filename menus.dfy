/** controllers/menuController.go: the time-span test and the menu update.
    The zero time of the records is 0. */
module Menus {
  import opened Common
  import opened Models
  import opened Database

  /** inTimeSpan(start, end, check): check is strictly after start and strictly
      before end. */
  function InTimeSpan(start: int, end: int, check: int): (r: bool)
    ensures r ==> start + 1 < end
    ensures r <==> start < check < end
  {
    check > start && check < end
  }

  /** The bounds of a span are outside it, and a span of less than two time
      units holds no instant at all. */
  lemma InTimeSpanStrict(start: int, end: int, check: int)
    ensures !InTimeSpan(start, end, start) && !InTimeSpan(start, end, end)
    ensures end <= start + 1 ==> !InTimeSpan(start, end, check)
  {
  }

  /** The span check of UpdateMenu: it applies only when the request carries
      both dates, and then requires the request time to lie strictly inside. */
  function SpanAccepted(incoming: Menu, now: int): (ok: bool)
    ensures incoming.startDate == 0 || incoming.endDate == 0 ==> ok
    ensures incoming.startDate != 0 && incoming.endDate != 0 ==>
              (ok <==> InTimeSpan(incoming.startDate, incoming.endDate, now))
  {
    !(incoming.startDate != 0 && incoming.endDate != 0) || InTimeSpan(incoming.startDate, incoming.endDate, now)
  }

  /** The stored menu with the non-zero fields of the request laid over it. */
  function MergeMenu(existing: Menu, incoming: Menu, now: int): (r: Menu)
    ensures r.startDate == if incoming.startDate != 0 then incoming.startDate else existing.startDate
    ensures r.endDate == if incoming.endDate != 0 then incoming.endDate else existing.endDate
    ensures r.name == if incoming.name != "" then incoming.name else existing.name
    ensures r.category == if incoming.category != "" then incoming.category else existing.category
    ensures r.id == existing.id && r.createdAt == existing.createdAt
    ensures r.updatedAt == now
  {
    existing.(
      startDate := Pick(incoming.startDate, 0, existing.startDate),
      endDate := Pick(incoming.endDate, 0, existing.endDate),
      name := Pick(incoming.name, "", existing.name),
      category := Pick(incoming.category, "", existing.category),
      updatedAt := now)
  }

  /** An accepted update that supplies both dates stores a span that contains
      the request time. */
  lemma AcceptedSpanContainsNow(existing: Menu, incoming: Menu, now: int)
    requires incoming.startDate != 0 && incoming.endDate != 0
    requires SpanAccepted(incoming, now)
    ensures var r := MergeMenu(existing, incoming, now);
            InTimeSpan(r.startDate, r.endDate, now)
  {
  }

  /** Supplying one date alone skips the check: a stored span from 10 to 20,
      updated at time 15 with the end date 5, is accepted and becomes a span
      that ends before it starts. */
  lemma OneDateSkipsSpanCheck()
    ensures var existing := Menu(1, "lunch", "main", 10, 20, 0, 0);
            var incoming := Menu(0, "", "", 0, 5, 0, 0);
            && SpanAccepted(incoming, 15)
            && MergeMenu(existing, incoming, 15).endDate < MergeMenu(existing, incoming, 15).startDate
  {
  }

  /** UpdateMenu: a missing menu is not found; a request whose two dates do not
      enclose the request time is a server error; in neither case is anything
      saved. Otherwise the merged menu replaces the stored one. */
  method UpdateMenu(db: Db, menuId: nat, incoming: Menu, now: int) returns (out: Outcome)
    requires db.Valid()
    modifies db`menus
    ensures db.Valid()
    ensures out != Ok ==> db.menus == old(db.menus)
    ensures menuId !in old(db.menus) ==> out == NotFound
    ensures menuId in old(db.menus) && !SpanAccepted(incoming, now) ==> out == ServerError
    ensures menuId in old(db.menus) && SpanAccepted(incoming, now) ==>
              out == Ok && db.menus == old(db.menus)[menuId := MergeMenu(old(db.menus)[menuId], incoming, now)]
  {
    if menuId !in db.menus {
      return NotFound;
    }
    var existing := db.menus[menuId];
    if incoming.startDate != 0 && incoming.endDate != 0 {
      if !InTimeSpan(incoming.startDate, incoming.endDate, now) {
        return ServerError;
      }
    }
    if incoming.startDate != 0 {
      existing := existing.(startDate := incoming.startDate);
    }
    if incoming.endDate != 0 {
      existing := existing.(endDate := incoming.endDate);
    }
    if incoming.name != "" {
      existing := existing.(name := incoming.name);
    }
    if incoming.category != "" {
      existing := existing.(category := incoming.category);
    }
    existing := existing.(updatedAt := now);
    db.menus := db.menus[menuId := existing];
    out := Ok;
  }
}
