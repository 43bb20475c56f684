/**
 * The Add Shows form's state: one selected movie, a price string, the
 * pending date-time input and the ordered list of chosen date-times, with
 * the handlers that change them.
 */
module AddShows {
  import opened Options

  type MovieId = int

  /** The list with every entry equal to t dropped, the others kept in order. */
  function Without(s: seq<string>, t: string): (r: seq<string>)
    ensures t !in r
    ensures forall x :: x in r <==> x in s && x != t
    ensures |r| <= |s|
  {
    if s == [] then []
    else (if s[0] == t then [] else [s[0]]) + Without(s[1..], t)
  }

  /** Removing a value that is not present changes nothing. */
  lemma {:induction false} WithoutAbsent(s: seq<string>, t: string)
    requires t !in s
    ensures Without(s, t) == s
    decreases |s|
  {
    if s != [] {
      WithoutAbsent(s[1..], t);
    }
  }

  /** Removing the same value twice is removing it once. */
  lemma WithoutIdempotent(s: seq<string>, t: string)
    ensures Without(Without(s, t), t) == Without(s, t)
  {
    WithoutAbsent(Without(s, t), t);
  }

  /** Removal distributes over concatenation: the other entries keep their relative order. */
  lemma {:induction false} WithoutAppend(a: seq<string>, b: seq<string>, t: string)
    ensures Without(a + b, t) == Without(a, t) + Without(b, t)
    decreases |a|
  {
    if a != [] {
      var head := if a[0] == t then [] else [a[0]];
      assert (a + b)[0] == a[0];
      assert (a + b)[1..] == a[1..] + b;
      assert Without(a + b, t) == head + Without(a[1..] + b, t);
      WithoutAppend(a[1..], b, t);
    } else {
      assert a + b == b;
    }
  }

  /** Every entry equal to t goes, every other entry keeps its multiplicity. */
  lemma {:induction false} WithoutMultiset(s: seq<string>, t: string)
    ensures multiset(Without(s, t)) == multiset(s)[t := 0]
    decreases |s|
  {
    if s != [] {
      WithoutMultiset(s[1..], t);
      assert s == [s[0]] + s[1..];
    }
  }

  predicate AllNonEmpty(s: seq<string>) {
    forall x :: x in s ==> x != ""
  }

  class AddShowsForm {
    var selectedMovie: Option<MovieId>
    var dateTimeSelection: seq<string>
    var dateTimeInput: string
    var showPrice: string

    /** Every chosen date-time is a non-empty string. */
    ghost predicate Valid()
      reads this
    {
      AllNonEmpty(dateTimeSelection)
    }

    /** The initial `useState` values. */
    constructor ()
      ensures Valid()
      ensures selectedMovie == None && dateTimeSelection == []
      ensures dateTimeInput == "" && showPrice == ""
    {
      selectedMovie := None;
      dateTimeSelection := [];
      dateTimeInput := "";
      showPrice := "";
    }

    /** Clicking a movie card: replaces any selection, no toggle. */
    method SelectMovie(id: MovieId)
      requires Valid()
      modifies this
      ensures Valid()
      ensures selectedMovie == Some(id)
      ensures dateTimeSelection == old(dateTimeSelection)
      ensures dateTimeInput == old(dateTimeInput) && showPrice == old(showPrice)
    {
      selectedMovie := Some(id);
    }

    /** The price input's onChange. */
    method SetShowPrice(value: string)
      requires Valid()
      modifies this
      ensures Valid()
      ensures showPrice == value
      ensures selectedMovie == old(selectedMovie) && dateTimeSelection == old(dateTimeSelection)
      ensures dateTimeInput == old(dateTimeInput)
    {
      showPrice := value;
    }

    /** The date-time input's onChange. */
    method SetDateTimeInput(value: string)
      requires Valid()
      modifies this
      ensures Valid()
      ensures dateTimeInput == value
      ensures selectedMovie == old(selectedMovie) && dateTimeSelection == old(dateTimeSelection)
      ensures showPrice == old(showPrice)
    {
      dateTimeInput := value;
    }

    /** "Add Time": a no-op on an empty input, otherwise append it and clear the input. */
    method HandleDateTimeAdd()
      requires Valid()
      modifies this
      ensures Valid()
      ensures old(dateTimeInput) == "" ==>
                dateTimeSelection == old(dateTimeSelection) && dateTimeInput == old(dateTimeInput)
      ensures old(dateTimeInput) != "" ==>
                dateTimeSelection == old(dateTimeSelection) + [old(dateTimeInput)] && dateTimeInput == ""
      ensures selectedMovie == old(selectedMovie) && showPrice == old(showPrice)
    {
      if dateTimeInput == "" {
        return;
      }
      dateTimeSelection := dateTimeSelection + [dateTimeInput];
      dateTimeInput := "";
    }

    /** The remove icon: drops every entry equal to the given time. */
    method HandleRemoveTime(timeToRemove: string)
      requires Valid()
      modifies this
      ensures Valid()
      ensures dateTimeSelection == Without(old(dateTimeSelection), timeToRemove)
      ensures timeToRemove !in dateTimeSelection
      ensures dateTimeInput == old(dateTimeInput)
      ensures selectedMovie == old(selectedMovie) && showPrice == old(showPrice)
    {
      dateTimeSelection := Without(dateTimeSelection, timeToRemove);
    }
  }

  /**
   * Adding v, then w, then v again keeps both copies of v (no
   * de-duplication); removing v then drops both and leaves w.
   */
  method AddTwiceThenRemove(v: string, w: string) returns (added: seq<string>, removed: seq<string>)
    requires v != "" && w != "" && v != w
    ensures added == [v, w, v]
    ensures removed == [w]
  {
    var form := new AddShowsForm();
    form.SetDateTimeInput(v);
    form.HandleDateTimeAdd();
    form.SetDateTimeInput(w);
    form.HandleDateTimeAdd();
    form.SetDateTimeInput(v);
    form.HandleDateTimeAdd();
    added := form.dateTimeSelection;
    form.HandleRemoveTime(v);
    removed := form.dateTimeSelection;
    assert Without([v, w, v], v) == [w] by {
      assert [v, w, v][1..] == [w, v] && [w, v][1..] == [v];
      assert Without([v], v) == [];
      assert Without([w, v], v) == [w];
    }
  }
}
