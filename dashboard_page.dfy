/**
 * The dashboard page: the events list kept in local storage, its colour classes, and the
 * statistics it shows, with all-zero statistics when loading them fails.
 */
module DashboardPage {
  import opened Common
  import opened Seqs
  import JsText
  import Stats

  datatype Event = Event(id: string, title: string, description: string, date: string, color: string, icon: string)

  /** The new-event form; an empty field is a missing one. */
  datatype EventDraft = EventDraft(title: string, description: string, date: string, color: string, icon: string)

  const EmptyDraft: EventDraft := EventDraft("", "", "", "primary", "calendar_month")

  /** The event the form creates at time `now` (milliseconds); missing description, colour and
      icon take their defaults. */
  function NewEvent(draft: EventDraft, now: int): (e: Event)
    ensures e.id == JsText.IntToString(now)
    ensures e.title == draft.title && e.date == draft.date
    ensures e.description == draft.description
    ensures e.color == (if draft.color == "" then "primary" else draft.color)
    ensures e.icon == (if draft.icon == "" then "calendar_month" else draft.icon)
  {
    Event(JsText.IntToString(now), draft.title, draft.description, draft.date,
          if draft.color == "" then "primary" else draft.color,
          if draft.icon == "" then "calendar_month" else draft.icon)
  }

  predicate DraftComplete(draft: EventDraft) {
    draft.title != "" && draft.date != ""
  }

  function NotId(id: string): Event -> bool {
    (e: Event) => e.id != id
  }

  /** `handleDeleteEvent` on the list. */
  function DeleteEvents(events: seq<Event>, id: string): seq<Event> {
    Filter(events, NotId(id))
  }

  /** Deleting removes every event with that id and keeps the others in order. */
  lemma {:induction false} DeleteEventsExact(events: seq<Event>, id: string)
    ensures var r := DeleteEvents(events, id);
      && (forall i :: 0 <= i < |r| ==> r[i].id != id && r[i] in events)
      && (forall i :: 0 <= i < |events| && events[i].id != id ==> events[i] in r)
      && IsSubsequence(r, events)
  {
    FilterIsSubsequence(events, NotId(id));
  }

  /** Deleting the event just created gives back the list before it, when no earlier event
      shared its id. */
  lemma {:induction false} DeleteUndoesCreate(events: seq<Event>, draft: EventDraft, now: int)
    requires forall i :: 0 <= i < |events| ==> events[i].id != JsText.IntToString(now)
    ensures DeleteEvents(events + [NewEvent(draft, now)], JsText.IntToString(now)) == events
  {
    var id := JsText.IntToString(now);
    FilterAppend(events, [NewEvent(draft, now)], NotId(id));
    FilterKeepsAll(events, NotId(id));
    assert Filter([NewEvent(draft, now)], NotId(id)) == [];
    assert events + [] == events;
  }

  /** `getColorClass`: any colour other than warning and success gets primary's class. */
  function ColorClass(color: string): (cls: string)
    ensures cls == "bg-[#fa6238]" <==> color == "warning"
    ensures cls == "bg-[#0bda5b]" <==> color == "success"
    ensures color != "warning" && color != "success" ==> cls == "bg-[#137fec]"
  {
    match color
    case "primary" => "bg-[#137fec]"
    case "warning" => "bg-[#fa6238]"
    case "success" => "bg-[#0bda5b]"
    case _ => "bg-[#137fec]"
  }

  /** The statistics shown after a failed load. */
  const FallbackStats: Stats.DashboardStats := Stats.DashboardStats(0, 0, 0, 0, 0)

  class Dashboard {
    var events: seq<Event>
    /** localStorage `hotel-events`. */
    var storedEvents: Option<seq<Event>>
    var showEventModal: bool
    var draft: EventDraft
    var stats: Option<Stats.DashboardStats>

    constructor ()
      ensures events == [] && storedEvents == None && !showEventModal && draft == EmptyDraft && stats == None
    {
      events, storedEvents, showEventModal, draft, stats := [], None, false, EmptyDraft, None;
    }

    /** `loadEvents`: the stored list, if there is one. */
    method LoadEvents()
      modifies this
      ensures events == if old(storedEvents).Some? then old(storedEvents).value else old(events)
      ensures storedEvents == old(storedEvents) && showEventModal == old(showEventModal)
      ensures draft == old(draft) && stats == old(stats)
    {
      if storedEvents.Some? {
        events := storedEvents.value;
      }
    }

    /** `loadDashboardStats`: the handler's reply, or all zeros when it threw (`None`). */
    method LoadStats(reply: Option<Stats.DashboardStats>)
      modifies this
      ensures stats == Some(if reply.Some? then reply.value else FallbackStats)
      ensures events == old(events) && storedEvents == old(storedEvents)
      ensures showEventModal == old(showEventModal) && draft == old(draft)
    {
      stats := Some(if reply.Some? then reply.value else FallbackStats);
    }

    /** `handleCreateEvent` at time `now`: an incomplete form alerts and changes nothing;
        otherwise the event is appended, saved, the form closed and reset. */
    method HandleCreateEvent(now: int) returns (alerted: bool)
      modifies this
      ensures alerted <==> !DraftComplete(old(draft))
      ensures alerted ==> events == old(events) && storedEvents == old(storedEvents)
                          && showEventModal == old(showEventModal) && draft == old(draft)
      ensures !alerted ==> events == old(events) + [NewEvent(old(draft), now)] && storedEvents == Some(events)
                           && !showEventModal && draft == EmptyDraft
      ensures stats == old(stats)
    {
      if !DraftComplete(draft) {
        return true;
      }
      var updated := events + [NewEvent(draft, now)];
      storedEvents := Some(updated);
      events := updated;
      showEventModal := false;
      draft := EmptyDraft;
      alerted := false;
    }

    /** `handleDeleteEvent`: the filtered list is saved and shown. */
    method HandleDeleteEvent(id: string)
      modifies this
      ensures events == DeleteEvents(old(events), id) && storedEvents == Some(events)
      ensures showEventModal == old(showEventModal) && draft == old(draft) && stats == old(stats)
    {
      var updated := DeleteEvents(events, id);
      storedEvents := Some(updated);
      events := updated;
    }
  }
}
