/**
 The list of recently opened plans (src/utils/storage.ts). The browser's
 `localStorage` slot that holds it becomes the field of a `HistoryStore`;
 whether a write exceeds the storage quota, the fresh id
 (`crypto.randomUUID`) and the clock (`Date.now`) become parameters.
 */
module History {
  import opened Collections
  import opened Terraform
  import PrimaryActions

  /** At most this many entries are kept. */
  const MAX_HISTORY: nat := 10
  /** How many entries the retry after a failed write keeps. */
  const FALLBACK_HISTORY: nat := 3

  datatype HistorySummary = HistorySummary(create: nat, update: nat, delete: nat)

  datatype HistoryEntry = HistoryEntry(
    id: string,
    name: string,
    terraformVersion: string,
    timestamp: int,
    summary: HistorySummary,
    plan: TerraformPlan)

  /** What the storage slot holds: nothing, a readable list, or data that does not parse. */
  datatype Slot = Absent | Stored(entries: seq<HistoryEntry>) | Unreadable

  /** The outcome of `addToHistory`: the new entry, or the exception of a write that did not fit. */
  datatype AddResult = Added(entry: HistoryEntry) | QuotaExceeded

  // ----- Summary counting -----

  /** The counter one change adds to: create if it creates, else delete, else update, else none. */
  function Count(summary: HistorySummary, actions: seq<Action>): HistorySummary {
    if Create in actions then summary.(create := summary.create + 1)
    else if Delete in actions then summary.(delete := summary.delete + 1)
    else if Update in actions then summary.(update := summary.update + 1)
    else summary
  }

  /** The summary of a list of changes, counted in order. */
  function SummaryOf(changes: seq<ResourceChange>): HistorySummary {
    if changes == [] then HistorySummary(0, 0, 0)
    else Count(SummaryOf(changes[..|changes| - 1]), changes[|changes| - 1].change.actions)
  }

  function Total(s: HistorySummary): nat {
    s.create + s.update + s.delete
  }

  function Creates(): ResourceChange -> bool {
    (c: ResourceChange) => Create in c.change.actions
  }

  function IsCounted(): ResourceChange -> bool {
    (c: ResourceChange) => Create in c.change.actions || Delete in c.change.actions || Update in c.change.actions
  }

  /** The loop of `addToHistory` over `plan.resource_changes`. */
  method CountChanges(plan: TerraformPlan) returns (summary: HistorySummary)
    ensures summary == SummaryOf(ChangesOf(plan))
  {
    summary := HistorySummary(0, 0, 0);
    if plan.resourceChanges.Some? {
      var changes := plan.resourceChanges.value;
      for i := 0 to |changes|
        invariant summary == SummaryOf(changes[..i])
      {
        var actions := changes[i].change.actions;
        if Create in actions {
          summary := summary.(create := summary.create + 1);
        } else if Delete in actions {
          summary := summary.(delete := summary.delete + 1);
        } else if Update in actions {
          summary := summary.(update := summary.update + 1);
        }
        assert changes[..i + 1][..i] == changes[..i];
      }
      assert changes[..|changes|] == changes;
    }
  }

  /**
   The create counter counts the changes that create, and the three counters
   together count the changes that create, delete or update; read and no-op
   changes are not counted.
   */
  lemma {:induction false} SummaryCounts(changes: seq<ResourceChange>)
    ensures SummaryOf(changes).create == |Filter(changes, Creates())|
    ensures Total(SummaryOf(changes)) == |Filter(changes, IsCounted())|
  {
    if changes != [] {
      var init, last := changes[..|changes| - 1], changes[|changes| - 1];
      SummaryCounts(init);
      assert changes == init + [last];
      FilterSnoc(init, last, Creates());
      FilterSnoc(init, last, IsCounted());
    }
  }

  /** So no counter exceeds the number of changes. */
  lemma SummaryBounded(changes: seq<ResourceChange>)
    ensures Total(SummaryOf(changes)) <= |changes|
  {
    SummaryCounts(changes);
  }

  /** A replacement (delete then create) counts as a creation here, though the graph shows it as a deletion. */
  lemma ReplaceCountsAsCreate(c: ResourceChange)
    requires c.change.actions == [Delete, Create]
    ensures SummaryOf([c]) == HistorySummary(1, 0, 0)
    ensures PrimaryActions.PrimaryAction(c.change.actions) == Delete
  {
    assert [c][..0] == [];
    assert Create in c.change.actions && Delete in c.change.actions;
  }

  // ----- The bounded list -----

  /** `s.slice(0, n)`. */
  function Take<T>(s: seq<T>, n: nat): (r: seq<T>)
    ensures |r| <= n && r <= s
  {
    if n <= |s| then s[..n] else s
  }

  /** `[entry, ...history].slice(0, MAX_HISTORY)`. */
  function NewHistory(entry: HistoryEntry, history: seq<HistoryEntry>): seq<HistoryEntry> {
    Take([entry] + history, MAX_HISTORY)
  }

  /**
   The new list starts with the new entry, continues with the previous
   entries in order, and has at most ten entries: the oldest ones are dropped.
   */
  lemma NewHistoryShape(entry: HistoryEntry, history: seq<HistoryEntry>)
    ensures var h := NewHistory(entry, history);
            |h| == (if |history| < MAX_HISTORY then |history| + 1 else MAX_HISTORY)
            && h[0] == entry
            && h[1..] == history[..|h| - 1]
  {
  }

  /** The position of the first entry with id `id`, if any. */
  function FirstIndex(entries: seq<HistoryEntry>, id: string): (r: Option<nat>)
    ensures r.None? ==> forall j :: 0 <= j < |entries| ==> entries[j].id != id
    ensures r.Some? ==> r.value < |entries| && entries[r.value].id == id
                        && forall j :: 0 <= j < r.value ==> entries[j].id != id
  {
    if entries == [] then None
    else if entries[0].id == id then Some(0)
    else
      match FirstIndex(entries[1..], id)
      case None => None
      case Some(k) => Some(k + 1)
  }

  /** The first entry with id `id`, if any (`find`). */
  function FindById(entries: seq<HistoryEntry>, id: string): (r: Option<HistoryEntry>)
    ensures r.None? <==> forall e :: e in entries ==> e.id != id
    ensures r.Some? ==> exists k :: 0 <= k < |entries| && entries[k] == r.value && r.value.id == id
                                    && forall j :: 0 <= j < k ==> entries[j].id != id
  {
    match FirstIndex(entries, id)
    case None => None
    case Some(k) => Some(entries[k])
  }

  function OtherId(id: string): HistoryEntry -> bool {
    (e: HistoryEntry) => e.id != id
  }

  /** Removing by id drops every entry with that id and keeps the others in order. */
  lemma RemovedById(history: seq<HistoryEntry>, id: string)
    ensures IsSubsequence(Filter(history, OtherId(id)), history)
    ensures forall e :: e in Filter(history, OtherId(id)) <==> e in history && e.id != id
  {
    FilterIsSubsequence(history, OtherId(id));
    FilterMembers(history, OtherId(id));
  }

  class HistoryStore {
    /** The `terralends_history` storage slot. */
    var slot: Slot

    constructor (initial: Slot)
      ensures slot == initial
    {
      slot := initial;
    }

    /** `getHistory`: the stored list, or nothing when the slot is empty or does not parse. */
    function History(): seq<HistoryEntry>
      reads this
    {
      match slot
      case Stored(entries) => entries
      case _ => []
    }

    /** `getHistoryById`. */
    function HistoryById(id: string): Option<HistoryEntry>
      reads this
    {
      FindById(History(), id)
    }

    /**
     `addToHistory`: count the changes, put the new entry in front, keep ten
     entries; if that write does not fit, keep three; if that does not fit
     either, the exception propagates and nothing was written.
     */
    method AddToHistory(name: string, plan: TerraformPlan, id: string, timestamp: int,
                        writeFits: bool, retryFits: bool) returns (r: AddResult)
      modifies this
      ensures r.Added? <==> writeFits || retryFits
      ensures r.Added? ==> r.entry == HistoryEntry(id, name, plan.terraformVersion, timestamp, SummaryOf(ChangesOf(plan)), plan)
      ensures r.Added? && writeFits ==> slot == Stored(NewHistory(r.entry, old(History())))
      ensures r.Added? && !writeFits ==> slot == Stored(Take(NewHistory(r.entry, old(History())), FALLBACK_HISTORY))
      ensures r.Added? ==> 0 < |History()| <= MAX_HISTORY && History()[0] == r.entry
      ensures r.QuotaExceeded? ==> slot == old(slot)
    {
      var history := History();
      var summary := CountChanges(plan);
      var entry := HistoryEntry(id, name, plan.terraformVersion, timestamp, summary, plan);
      var newHistory := Take([entry] + history, MAX_HISTORY);
      if writeFits {
        slot := Stored(newHistory);
      } else if retryFits {
        var reduced := Take(newHistory, FALLBACK_HISTORY);
        slot := Stored(reduced);
      } else {
        return QuotaExceeded;
      }
      r := Added(entry);
    }

    /** `removeFromHistory`: write back the list without the entries with id `id`, if the write fits. */
    method RemoveFromHistory(id: string, writeFits: bool) returns (written: bool)
      modifies this
      ensures written == writeFits
      ensures written ==> slot == Stored(Filter(old(History()), OtherId(id)))
      ensures !written ==> slot == old(slot)
    {
      var history := History();
      if !writeFits {
        return false;
      }
      slot := Stored(Filter(history, OtherId(id)));
      written := true;
    }

    /** `clearHistory`: afterwards the history reads as empty. */
    method ClearHistory()
      modifies this
      ensures slot == Absent && History() == []
    {
      slot := Absent;
    }
  }

  /** After a removal, looking up the removed id finds nothing. */
  lemma RemovedIdNotFound(history: seq<HistoryEntry>, id: string)
    ensures FindById(Filter(history, OtherId(id)), id) == None
  {
    FilterMembers(history, OtherId(id));
  }

  /** Looking up the id of a freshly added entry finds that entry. */
  lemma AddedEntryFound(entry: HistoryEntry, history: seq<HistoryEntry>, keep: nat)
    requires keep > 0
    ensures FindById(Take(NewHistory(entry, history), keep), entry.id) == Some(entry)
  {
    NewHistoryShape(entry, history);
  }
}
