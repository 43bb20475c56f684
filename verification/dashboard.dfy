/**
 * The admin dashboard's derived values: display records built from raw
 * shows, the seat-availability label, the header statistics, the rounded
 * average ticket price and the count of upcoming shows. Date-times are
 * integer timestamps and the clock is the parameter `now`.
 */
module Dashboard {
  import opened Options
  import opened Numerals

  /** Fixed capacity of every show. */
  const TotalSeats: int := 50
  /** Price shown for a show whose price is missing or zero. */
  const DefaultPrice: int := 50
  const UnknownTitle: string := "Unknown Show"
  const SoldOut: string := "Sold Out"
  const MaxSeats: string := "Max"
  const LeftSuffix: string := " left"

  datatype Movie = Movie(title: Option<string>)

  datatype Show = Show(
    id: string,
    movie: Option<Movie>,
    showDateTime: int,
    showPrice: Option<int>,
    occupiedSeats: Option<map<string, string>>)

  /** The dashboard payload; every field may be absent. */
  datatype DashboardData = DashboardData(
    totalBookings: Option<int>,
    totalRevenue: Option<int>,
    totalUser: Option<int>,
    activeShows: Option<seq<Show>>)

  datatype Stats = Stats(totalBookings: int, totalRevenue: int, totalUsers: int, activeShows: nat)

  datatype DisplayShow = DisplayShow(id: string, title: string, price: int, seats: string, showData: Show)

  /** Number of keys of the occupied-seats object; a missing object counts as empty. */
  function OccupiedCount(show: Show): nat {
    match show.occupiedSeats
    case None => 0
    case Some(m) => |m|
  }

  /** The seat label: "Sold Out", "Max", or the (unclamped) number of free seats and " left". */
  function SeatAvailability(show: Show): (text: string)
    ensures text == SoldOut <==> OccupiedCount(show) == TotalSeats
    ensures text == MaxSeats <==> OccupiedCount(show) == 0
    ensures show.occupiedSeats == None ==> text == MaxSeats
  {
    var available := TotalSeats - OccupiedCount(show);
    if available == 0 then SoldOut
    else if available == TotalSeats then MaxSeats
    else
      var text := IntToString(available) + LeftSuffix;
      assert text[|text| - 5..] == LeftSuffix;
      assert |text| == 8 ==> text[3] == ' ';
      text
  }

  /** Otherwise the label reads back as 50 minus the occupied count, negative when overbooked. */
  lemma SeatsLeftLabel(show: Show)
    requires OccupiedCount(show) != 0 && OccupiedCount(show) != TotalSeats
    ensures var text := SeatAvailability(show);
            |text| > |LeftSuffix| &&
            text[|text| - |LeftSuffix|..] == LeftSuffix &&
            ParseInt(text[..|text| - |LeftSuffix|]) == Some(TotalSeats - OccupiedCount(show)) &&
            (text[0] == '-' <==> OccupiedCount(show) > TotalSeats)
  {
    var available := TotalSeats - OccupiedCount(show);
    var text := SeatAvailability(show);
    assert text == IntToString(available) + LeftSuffix;
    assert text[..|text| - |LeftSuffix|] == IntToString(available);
    ParseIntToString(available);
  }

  /** The show has a movie whose title is present and non-empty; otherwise the title falls back. */
  predicate HasTitle(show: Show) {
    show.movie.Some? && show.movie.value.title.Some? && show.movie.value.title.value != ""
  }

  /** The show has a price that is present and non-zero; otherwise the price falls back. */
  predicate HasPrice(show: Show) {
    show.showPrice.Some? && show.showPrice.value != 0
  }

  /** One display record per show, keeping its source show. */
  function ToDisplay(show: Show): (d: DisplayShow)
    ensures d.id == show.id && d.showData == show
    ensures d.title != ""
    ensures HasTitle(show) ==> d.title == show.movie.value.title.value
    ensures !HasTitle(show) ==> d.title == UnknownTitle
    ensures d.price != 0
    ensures HasPrice(show) ==> d.price == show.showPrice.value
    ensures !HasPrice(show) ==> d.price == DefaultPrice
    ensures (show.showPrice.None? || show.showPrice.value >= 0) ==> d.price > 0
    ensures d.seats == SeatAvailability(show)
  {
    DisplayShow(
      show.id,
      if HasTitle(show) then show.movie.value.title.value else UnknownTitle,
      if HasPrice(show) then show.showPrice.value else DefaultPrice,
      SeatAvailability(show),
      show)
  }

  /** The `.map` over the shows: same length, same order. */
  function DisplayAll(shows: seq<Show>): (ds: seq<DisplayShow>)
    ensures |ds| == |shows|
    ensures forall i :: 0 <= i < |ds| ==> ds[i] == ToDisplay(shows[i])
    ensures forall i :: 0 <= i < |ds| ==> ds[i].showData == shows[i]
  {
    if shows == [] then [] else [ToDisplay(shows[0])] + DisplayAll(shows[1..])
  }

  function ShowsOf(data: DashboardData): seq<Show> {
    match data.activeShows
    case None => []
    case Some(shows) => shows
  }

  /** The dashboard's active-show list; a missing list gives an empty one. */
  function ActiveShows(data: DashboardData): (ds: seq<DisplayShow>)
    ensures data.activeShows == None ==> ds == []
    ensures |ds| == |ShowsOf(data)|
    ensures forall i :: 0 <= i < |ds| ==> ds[i] == ToDisplay(ShowsOf(data)[i])
  {
    DisplayAll(ShowsOf(data))
  }

  /** The source shows of a list of display records. */
  function Sources(ds: seq<DisplayShow>): seq<Show> {
    if ds == [] then [] else [ds[0].showData] + Sources(ds[1..])
  }

  /** Every display record keeps its source show: the map can be undone. */
  lemma {:induction false} SourcesOfDisplayAll(shows: seq<Show>)
    ensures Sources(DisplayAll(shows)) == shows
    decreases |shows|
  {
    if shows != [] {
      SourcesOfDisplayAll(shows[1..]);
    }
  }

  /** The header figures; each total defaults to 0 and users come from `totalUser`. */
  function CalculateStats(data: DashboardData): (st: Stats)
    ensures st.totalBookings == data.totalBookings.GetOr(0)
    ensures st.totalRevenue == data.totalRevenue.GetOr(0)
    ensures st.totalUsers == data.totalUser.GetOr(0)
    ensures st.activeShows == |ActiveShows(data)|
  {
    Stats(
      data.totalBookings.GetOr(0),
      data.totalRevenue.GetOr(0),
      data.totalUser.GetOr(0),
      |ShowsOf(data)|)
  }

  /** The `.reduce` sum of the displayed prices, left to right. */
  function SumPrices(ds: seq<DisplayShow>): int {
    if ds == [] then 0 else SumPrices(ds[..|ds| - 1]) + ds[|ds| - 1].price
  }

  /** Math.round(a / b): the integer q with q <= a/b + 1/2 < q + 1. */
  function RoundDiv(a: int, b: int): (q: int)
    requires b > 0
    ensures 2 * q * b <= 2 * a + b < 2 * (q + 1) * b
  {
    (2 * a + b) / (2 * b)
  }

  /** The average ticket price, the divisor `length || 1` guarding the empty list. */
  function AveragePrice(ds: seq<DisplayShow>): (avg: int)
    ensures ds == [] ==> avg == 0
    ensures ds != [] ==> 2 * avg * |ds| <= 2 * SumPrices(ds) + |ds| < 2 * (avg + 1) * |ds|
  {
    RoundDiv(SumPrices(ds), if |ds| == 0 then 1 else |ds|)
  }

  lemma {:induction false} SumPricesBounds(ds: seq<DisplayShow>, lo: int, hi: int)
    requires forall i :: 0 <= i < |ds| ==> lo <= ds[i].price <= hi
    ensures |ds| * lo <= SumPrices(ds) <= |ds| * hi
    decreases |ds|
  {
    if ds != [] {
      SumPricesBounds(ds[..|ds| - 1], lo, hi);
      assert |ds| * lo == (|ds| - 1) * lo + lo;
      assert |ds| * hi == (|ds| - 1) * hi + hi;
    }
  }

  /** With every price in [lo, hi], so is the rounded average: it lies between the minimum and maximum price. */
  lemma AveragePriceWithinBounds(ds: seq<DisplayShow>, lo: int, hi: int)
    requires ds != []
    requires forall i :: 0 <= i < |ds| ==> lo <= ds[i].price <= hi
    ensures lo <= AveragePrice(ds) <= hi
  {
    SumPricesBounds(ds, lo, hi);
    RoundedMeanBounds(SumPrices(ds), |ds|, AveragePrice(ds), lo, hi);
  }

  lemma RoundedMeanBounds(sum: int, n: int, avg: int, lo: int, hi: int)
    requires n > 0 && n * lo <= sum <= n * hi
    requires 2 * avg * n <= 2 * sum + n < 2 * (avg + 1) * n
    ensures lo <= avg <= hi
  {
    if avg > hi {
      MulMonotone(hi + 1, avg, n);
    }
    if avg < lo {
      MulMonotone(avg + 1, lo, n);
    }
  }

  lemma MulMonotone(x: int, y: int, m: int)
    requires x <= y && m >= 0
    ensures x * m <= y * m
  {
  }

  /** The shows whose date-time is strictly after `now`, in their original order. */
  function Upcoming(ds: seq<DisplayShow>, now: int): (r: seq<DisplayShow>)
    ensures |r| <= |ds|
    ensures forall x :: x in r <==> x in ds && x.showData.showDateTime > now
  {
    if ds == [] then []
    else (if ds[0].showData.showDateTime > now then [ds[0]] else []) + Upcoming(ds[1..], now)
  }

  /** The upcoming-shows figure; it never exceeds the number of active shows. */
  function UpcomingCount(ds: seq<DisplayShow>, now: int): (c: nat)
    ensures c <= |ds|
  {
    |Upcoming(ds, now)|
  }

  /** Filtering distributes over concatenation, so relative order is kept. */
  lemma {:induction false} UpcomingAppend(a: seq<DisplayShow>, b: seq<DisplayShow>, now: int)
    ensures Upcoming(a + b, now) == Upcoming(a, now) + Upcoming(b, now)
    decreases |a|
  {
    if a != [] {
      var head := if a[0].showData.showDateTime > now then [a[0]] else [];
      assert (a + b)[0] == a[0];
      assert (a + b)[1..] == a[1..] + b;
      assert Upcoming(a + b, now) == head + Upcoming(a[1..] + b, now);
      UpcomingAppend(a[1..], b, now);
      assert Upcoming(a, now) == head + Upcoming(a[1..], now);
    } else {
      assert a + b == b;
    }
  }

  /** Every show is counted exactly when every show is strictly after `now`. */
  lemma {:induction false} UpcomingAll(ds: seq<DisplayShow>, now: int)
    ensures Upcoming(ds, now) == ds <==> forall i :: 0 <= i < |ds| ==> ds[i].showData.showDateTime > now
    decreases |ds|
  {
    if ds != [] {
      UpcomingAll(ds[1..], now);
      if ds[0].showData.showDateTime <= now {
        assert |Upcoming(ds, now)| < |ds|;
      }
    }
  }

  /** The count is zero exactly when no show is strictly after `now`; one at exactly `now` does not count. */
  lemma UpcomingNone(ds: seq<DisplayShow>, now: int)
    ensures UpcomingCount(ds, now) == 0 <==> forall i :: 0 <= i < |ds| ==> ds[i].showData.showDateTime <= now
  {
    var r := Upcoming(ds, now);
    if |r| > 0 {
      assert r[0] in r;
    }
    if exists i :: 0 <= i < |ds| && ds[i].showData.showDateTime > now {
      var i :| 0 <= i < |ds| && ds[i].showData.showDateTime > now;
      assert ds[i] in ds;
      assert ds[i] in r;
    }
  }

  /** As the clock advances the count never grows. */
  lemma {:induction false} UpcomingCountMonotone(ds: seq<DisplayShow>, earlier: int, later: int)
    requires earlier <= later
    ensures UpcomingCount(ds, later) <= UpcomingCount(ds, earlier)
    decreases |ds|
  {
    if ds != [] {
      UpcomingCountMonotone(ds[1..], earlier, later);
    }
  }
}
