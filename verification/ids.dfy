/**
 * Element ids of the offline cache and their order. Generated ids order by
 * the millisecond they were created in (a serial number tells apart ids of
 * one millisecond). Mail set entry ids are custom ids built from the mail's
 * receive date and the mail's generated id, and order by date first. Each
 * family has a least and a greatest id that no real element carries.
 */
module Ids {

  type ListId = string

  datatype GeneratedId = GeneratedMin | Generated(timestamp: nat, serial: nat) | GeneratedMax

  datatype ElementId =
    | GenId(gen: GeneratedId)
    | CustomMin
    | MailSetEntryId(receiveDate: nat, mailId: GeneratedId)
    | CustomMax

  /** `a` sorts strictly before `b` among generated ids. */
  predicate GeneratedLess(a: GeneratedId, b: GeneratedId)
  {
    match a
    case GeneratedMin => !b.GeneratedMin?
    case Generated(t1, s1) =>
      b.GeneratedMax? || (b.Generated? && (t1 < b.timestamp || (t1 == b.timestamp && s1 < b.serial)))
    case GeneratedMax => false
  }

  /**
   * `a` sorts strictly before `b`. Generated ids and custom ids are never
   * compared with each other: a list holds ids of one family only.
   */
  predicate IdLess(a: ElementId, b: ElementId)
  {
    match a
    case GenId(x) => b.GenId? && GeneratedLess(x, b.gen)
    case CustomMin => b.MailSetEntryId? || b.CustomMax?
    case MailSetEntryId(d, m) =>
      b.CustomMax? || (b.MailSetEntryId? && (d < b.receiveDate || (d == b.receiveDate && GeneratedLess(m, b.mailId))))
    case CustomMax => false
  }

  /** The same family: both generated, or both custom. */
  predicate SameFamily(a: ElementId, b: ElementId)
  {
    a.GenId? == b.GenId?
  }

  lemma IdLessIrreflexive(a: ElementId)
    ensures !IdLess(a, a)
  {
  }

  lemma IdLessTransitive(a: ElementId, b: ElementId, c: ElementId)
    requires IdLess(a, b) && IdLess(b, c)
    ensures IdLess(a, c)
  {
  }

  /** Within one family any two distinct ids are ordered one way or the other. */
  lemma IdLessTotal(a: ElementId, b: ElementId)
    requires SameFamily(a, b) && a != b
    ensures IdLess(a, b) || IdLess(b, a)
  {
  }

  /** The id of the entry for a mail received at `receiveDate`. */
  function ConstructMailSetEntryId(receiveDate: nat, mailId: GeneratedId): (r: ElementId)
    ensures r.MailSetEntryId?
    ensures IdLess(CustomMin, r) && IdLess(r, CustomMax)
  {
    MailSetEntryId(receiveDate, mailId)
  }

  /** The receive date and mail id a mail set entry id is made of. */
  function DeconstructMailSetEntryId(id: ElementId): (r: (nat, GeneratedId))
    requires id.MailSetEntryId?
  {
    (id.receiveDate, id.mailId)
  }

  /** Deconstructing a constructed id gives back its parts. */
  lemma DeconstructConstruct(receiveDate: nat, mailId: GeneratedId)
    ensures DeconstructMailSetEntryId(ConstructMailSetEntryId(receiveDate, mailId)) == (receiveDate, mailId)
  {
  }

  /** Constructing from the parts of an entry id gives back that id. */
  lemma ConstructDeconstruct(id: ElementId)
    requires id.MailSetEntryId?
    ensures ConstructMailSetEntryId(DeconstructMailSetEntryId(id).0, DeconstructMailSetEntryId(id).1) == id
  {
  }

  /**
   * The cutoff entry id for a cutoff date: the date paired with the greatest
   * generated id, so it lies after every entry received on that date.
   */
  function CutoffId(cutoffDate: nat): (r: ElementId)
    ensures r.MailSetEntryId? && r.receiveDate == cutoffDate
  {
    ConstructMailSetEntryId(cutoffDate, GeneratedMax)
  }

  /**
   * A real entry (its mail id is not a sentinel) lies before the cutoff
   * exactly when it was received no later than the cutoff date.
   */
  lemma BeforeCutoffIffEarlier(cutoffDate: nat, receiveDate: nat, timestamp: nat, serial: nat)
    ensures IdLess(ConstructMailSetEntryId(receiveDate, Generated(timestamp, serial)), CutoffId(cutoffDate))
        <==> receiveDate <= cutoffDate
  {
  }

  /**
   * Moves an entry id `ms` milliseconds later and lets it refer to `mailId`,
   * the way the tests step through entry ids.
   */
  function IncrementMailSetEntryId(id: ElementId, mailId: GeneratedId, ms: nat): (r: ElementId)
    requires id.MailSetEntryId?
    ensures r.MailSetEntryId? && DeconstructMailSetEntryId(r) == (DeconstructMailSetEntryId(id).0 + ms, mailId)
    ensures ms > 0 ==> IdLess(id, r)
  {
    var (receiveDate, _) := DeconstructMailSetEntryId(id);
    ConstructMailSetEntryId(receiveDate + ms, mailId)
  }
}
