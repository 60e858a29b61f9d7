/** The calendar page (calendar/page.tsx). Dates are day numbers: the
    source's `"yyyy-MM-dd"` strings compare, and equal, exactly as the days
    they name do. */
module Calendar {
  import opened Common
  import opened Sorting

  datatype Event = Event(id: int, title: string, date: int, eventType: string,
                         course: string, description: string)

  const DefaultColor := "bg-muted text-muted-foreground hover:bg-muted/80"

  const TypeColors: map<string, string> := map[
    "assignment" := "bg-primary/20 text-primary hover:bg-primary/30 border-primary/40",
    "exam" := "bg-destructive/20 text-destructive hover:bg-destructive/30 border-destructive/40",
    "lecture" := "bg-info/20 text-info hover:bg-info/30 border-info/40",
    "meeting" := "bg-warning/20 text-warning hover:bg-warning/30 border-warning/40"]

  /** `getEventTypeColor`: the four known types have their own class,
      anything else gets the default. */
  function EventTypeColor(eventType: string): (c: string)
    ensures eventType in TypeColors ==> c == TypeColors[eventType]
    ensures eventType !in TypeColors ==> c == DefaultColor
  {
    GetOr(TypeColors, eventType, DefaultColor)
  }

  lemma EventTypeColorDistinct(t: string)
    ensures EventTypeColor(t) == DefaultColor <==> t !in {"assignment", "exam", "lecture", "meeting"}
  {
  }

  /** The `dayEvents` filter of one calendar cell. */
  function DayEvents(events: seq<Event>, day: int): (r: seq<Event>)
    ensures forall k :: 0 <= k < |r| ==> r[k] in events && r[k].date == day
    ensures forall k :: 0 <= k < |events| && events[k].date == day ==> events[k] in r
  {
    Filter(events, (e: Event) => e.date == day)
  }

  /** A cell lists its events in catalogue order: the lookup acts piecewise on
      a split catalogue, and across days it splits the catalogue's multiset. */
  lemma DayEventsOrder(a: seq<Event>, b: seq<Event>, day: int)
    ensures DayEvents(a + b, day) == DayEvents(a, day) + DayEvents(b, day)
  {
    FilterAppend(a, b, (e: Event) => e.date == day);
  }

  predicate DateBefore(a: Event, b: Event)
  {
    a.date <= b.date
  }

  lemma DateBeforeIsTotalPreorder()
    ensures TotalPreorder(DateBefore)
  {
  }

  /** Sorting by date yields ascending dates. */
  lemma SortByDateSorted(s: seq<Event>)
    ensures SortedBy(SortBy(s, DateBefore), DateBefore)
  {
    DateBeforeIsTotalPreorder();
    SortBySorted(s, DateBefore);
  }

  const SidebarLength := 5

  /** The events dated today or later, in catalogue order. */
  function NotPast(events: seq<Event>, today: int): (r: seq<Event>)
    ensures multiset(r) <= multiset(events)
    ensures forall k :: 0 <= k < |r| ==> r[k].date >= today
    ensures forall k :: 0 <= k < |events| && events[k].date >= today ==> events[k] in r
  {
    var keep := (e: Event) => e.date >= today;
    FilterPartition(events, keep);
    Filter(events, keep)
  }

  /** The sidebar's `upcomingEvents`: those dated today or later, by date, at most five. */
  function UpcomingEvents(events: seq<Event>, today: int): seq<Event>
  {
    Take(SortBy(NotPast(events, today), DateBefore), SidebarLength)
  }

  /** The sidebar lists at most five events, none before today, by ascending
      date, each from the catalogue; and they are the earliest: an eligible
      event left out is no earlier than any event shown, and one is left out
      only when the sidebar is full. */
  lemma UpcomingEventsSpec(events: seq<Event>, today: int)
    ensures |UpcomingEvents(events, today)| <= SidebarLength
    ensures multiset(UpcomingEvents(events, today)) <= multiset(events)
    ensures forall k :: 0 <= k < |UpcomingEvents(events, today)| ==>
      UpcomingEvents(events, today)[k].date >= today && UpcomingEvents(events, today)[k] in events
    ensures forall i, j :: 0 <= i < j < |UpcomingEvents(events, today)| ==>
      UpcomingEvents(events, today)[i].date <= UpcomingEvents(events, today)[j].date
    ensures forall e :: e in events && e.date >= today && e !in UpcomingEvents(events, today) ==>
      && |UpcomingEvents(events, today)| == SidebarLength
      && forall k :: 0 <= k < |UpcomingEvents(events, today)| ==> UpcomingEvents(events, today)[k].date <= e.date
  {
    var eligible := NotPast(events, today);
    var sorted := SortBy(eligible, DateBefore);
    var r := Take(sorted, SidebarLength);
    SortByDateSorted(eligible);
    TakeSortedKeepsLeast(sorted, SidebarLength, DateBefore);
    assert multiset(r) <= multiset(eligible);
    SubMultisetMembers(r, eligible);
    SubMultisetMembers(r, events);
    forall e | e in events && e.date >= today ensures e in sorted {
      assert e in eligible;
      assert e in multiset(sorted);
    }
  }

  /** How a grid cell is highlighted. */
  datatype CellStyle = OutsideMonth | Today | Plain

  datatype Cell = Cell(day: int, events: seq<Event>, style: CellStyle)

  /** One cell of the month grid: its day, its events, and its highlight
      (days outside the shown month are muted before "today" is checked). */
  function CellFor(events: seq<Event>, day: int, monthStart: int, monthEnd: int, today: int): (c: Cell)
    ensures c.day == day && c.events == DayEvents(events, day)
    ensures c.style == OutsideMonth <==> day < monthStart || day > monthEnd
    ensures c.style == Today <==> monthStart <= day <= monthEnd && day == today
    ensures c.style == Plain <==> monthStart <= day <= monthEnd && day != today
  {
    Cell(day, DayEvents(events, day),
         if !(monthStart <= day <= monthEnd) then OutsideMonth
         else if day == today then Today
         else Plain)
  }

  const DaysPerWeek := 7

  /** `n` weeks are the fewest that reach `d` days past the first. */
  lemma WeeksToCover(n: int, d: int)
    requires 0 <= d && DaysPerWeek * (n - 1) <= d < DaysPerWeek * n
    ensures n == d / DaysPerWeek + 1
  {
  }

  /** `renderCells`: from `startDate`, rows of seven consecutive days are
      emitted while the current day has not passed `endDate`. */
  method RenderCells(events: seq<Event>, monthStart: int, monthEnd: int,
                     startDate: int, endDate: int, today: int) returns (rows: seq<seq<Cell>>)
    ensures forall r :: 0 <= r < |rows| ==> |rows[r]| == DaysPerWeek
    ensures forall r, c :: 0 <= r < |rows| && 0 <= c < DaysPerWeek ==>
      rows[r][c] == CellFor(events, startDate + DaysPerWeek * r + c, monthStart, monthEnd, today)
    // every row was begun on or before endDate, and the day after the grid is past it
    ensures forall r :: 0 <= r < |rows| ==> startDate + DaysPerWeek * r <= endDate
    ensures startDate + DaysPerWeek * |rows| > endDate
    // hence a grid from a week start to a week end holds exactly its weeks
    ensures startDate > endDate ==> rows == []
    ensures startDate <= endDate ==> |rows| == (endDate - startDate) / DaysPerWeek + 1
  {
    rows := [];
    var days: seq<Cell> := [];
    var day := startDate;
    while day <= endDate
      invariant day == startDate + DaysPerWeek * |rows|
      invariant days == []
      invariant forall r :: 0 <= r < |rows| ==> |rows[r]| == DaysPerWeek
      invariant forall r, c :: 0 <= r < |rows| && 0 <= c < DaysPerWeek ==>
        rows[r][c] == CellFor(events, startDate + DaysPerWeek * r + c, monthStart, monthEnd, today)
      invariant forall r :: 0 <= r < |rows| ==> startDate + DaysPerWeek * r <= endDate
      decreases endDate - day
    {
      ghost var rowStart := day;
      for i := 0 to DaysPerWeek
        invariant day == rowStart + i
        invariant |days| == i
        invariant forall c :: 0 <= c < i ==> days[c] == CellFor(events, rowStart + c, monthStart, monthEnd, today)
      {
        days := days + [CellFor(events, day, monthStart, monthEnd, today)];
        day := day + 1;
      }
      rows := rows + [days];
      days := [];
    }
    if startDate <= endDate {
      assert startDate + DaysPerWeek * (|rows| - 1) <= endDate;
      WeeksToCover(|rows|, endDate - startDate);
    }
  }
}
