/**
 * The guest list: the search box filter, the total-stays figure and the last-stay label.
 */
module GuestsPage {
  import opened Common
  import opened JsText
  import opened Seqs

  /** A row of the guests-with-stats query. */
  datatype GuestSummary = GuestSummary(
    guestId: int,
    fullName: string,
    phoneNumber: string,
    email: Option<string>,
    totalStays: Option<int>,
    lastStayDate: Option<int>)

  /** The search predicate: the lower-cased name includes the lower-cased term, or the phone
      includes the term as typed, or a non-empty email lower-cased includes the lower-cased term. */
  predicate MatchesSearch(g: GuestSummary, term: string) {
    || Includes(ToLower(g.fullName), ToLower(term))
    || Includes(g.phoneNumber, term)
    || (g.email.Some? && g.email.value != "" && Includes(ToLower(g.email.value), ToLower(term)))
  }

  function SearchFilter(term: string): GuestSummary -> bool {
    (g: GuestSummary) => MatchesSearch(g, term)
  }

  /** `filteredGuests`. */
  function FilteredGuests(guests: seq<GuestSummary>, term: string): seq<GuestSummary> {
    Filter(guests, SearchFilter(term))
  }

  /** The result holds exactly the matching guests and keeps their order. */
  lemma {:induction false} FilteredGuestsExact(guests: seq<GuestSummary>, term: string)
    ensures var f := FilteredGuests(guests, term);
      && (forall i :: 0 <= i < |f| ==> f[i] in guests && MatchesSearch(f[i], term))
      && (forall i :: 0 <= i < |guests| && MatchesSearch(guests[i], term) ==> guests[i] in f)
      && IsSubsequence(f, guests)
  {
    FilterIsSubsequence(guests, SearchFilter(term));
  }

  /** An empty search box keeps every guest. */
  lemma {:induction false} EmptySearchKeepsAll(guests: seq<GuestSummary>)
    ensures FilteredGuests(guests, "") == guests
  {
    forall g | g in guests ensures MatchesSearch(g, "") {
      IncludesEmpty(ToLower(g.fullName));
    }
    FilterKeepsAll(guests, SearchFilter(""));
  }

  /** A guest without an email is found only through the name or the phone. */
  lemma NoEmailMatchesByNameOrPhone(g: GuestSummary, term: string)
    requires g.email.None?
    ensures MatchesSearch(g, term) <==> Includes(ToLower(g.fullName), ToLower(term)) || Includes(g.phoneNumber, term)
  {
  }

  /** Lower-casing forgets what upper-casing did. */
  lemma {:induction false} LowerOfUpper(s: string)
    ensures ToLower(ToUpper(s)) == ToLower(s)
  {
    forall i | 0 <= i < |s| ensures LowerChar(UpperChar(s[i])) == LowerChar(s[i]) {
    }
  }

  /** The name and email tests ignore the case of the term: a guest found through them is also
      found with the term upper-cased. */
  lemma {:induction false} NameAndEmailIgnoreCase(g: GuestSummary, term: string)
    requires Includes(ToLower(g.fullName), ToLower(term))
          || (g.email.Some? && g.email.value != "" && Includes(ToLower(g.email.value), ToLower(term)))
    ensures MatchesSearch(g, ToUpper(term))
  {
    LowerOfUpper(term);
  }

  /** The phone test does not: a phone holding the term in lower case is missed upper-cased. */
  lemma PhoneIsCaseSensitive()
    ensures var g := GuestSummary(1, "Ali", "ext", None, None, None);
      MatchesSearch(g, "ext") && !MatchesSearch(g, ToUpper("ext"))
  {
    var g := GuestSummary(1, "Ali", "ext", None, None, None);
    assert OccursAt("ext", "ext", 0);
    assert ToUpper("ext") == "EXT";
    assert ToLower("EXT") == "ext";
    assert ToLower("Ali") == "ali";
    assert !OccursAt("ext", "EXT", 0);
  }

  /** `Number(g.TotalStays || 0)`: a missing count is 0. */
  function StaysOf(g: GuestSummary): int {
    g.totalStays.GetOr(0)
  }

  /** The total-stays figure: the sum over the list. */
  function TotalStays(guests: seq<GuestSummary>): int {
    if guests == [] then 0 else StaysOf(guests[0]) + TotalStays(guests[1..])
  }

  lemma {:induction false} TotalStaysAppend(a: seq<GuestSummary>, b: seq<GuestSummary>)
    ensures TotalStays(a + b) == TotalStays(a) + TotalStays(b)
  {
    if a == [] {
      assert a + b == b;
    } else {
      assert (a + b)[0] == a[0] && (a + b)[1..] == a[1..] + b;
      TotalStaysAppend(a[1..], b);
    }
  }

  /** Guests without a count add nothing, and the total is at least each guest's own count
      when no count is negative. */
  lemma {:induction false} TotalStaysBounds(guests: seq<GuestSummary>)
    requires forall i :: 0 <= i < |guests| ==> StaysOf(guests[i]) >= 0
    ensures TotalStays(guests) >= 0
    ensures forall i :: 0 <= i < |guests| ==> TotalStays(guests) >= StaysOf(guests[i])
    ensures (forall i :: 0 <= i < |guests| ==> guests[i].totalStays.None?) ==> TotalStays(guests) == 0
  {
    if guests != [] {
      TotalStaysBounds(guests[1..]);
      assert forall i :: 1 <= i < |guests| ==> guests[i] == guests[1..][i - 1];
    }
  }

  /** The last-stay cell: `Never` without a date, the formatted date otherwise. */
  datatype StayLabel = Never | OnDay(day: int)

  function LastStayLabel(date: Option<int>): (shown: StayLabel)
    ensures shown == Never <==> date.None?
    ensures date.Some? ==> shown == OnDay(date.value)
  {
    match date
    case None => Never
    case Some(d) => OnDay(d)
  }
}
