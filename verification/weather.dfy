/**
  The values the dashboards hold: summary cards and the detailed weather of
  one city, the outcome of a remote fetch, the messages both dashboards show,
  and the removal of cards by id. Temperatures are opaque readings.
 */
module Weather {

  const LoadFailed := "Failed to load weather data. Check API key."
  const CityNotFound := "Could not find that city"

  /** A JavaScript number as displayed: a finite reading or NaN. */
  datatype Num = Finite(value: real) | NaN

  /** `CardWeather`: one city of the grid. */
  datatype Card = Card(id: string, cityname: string, description: string, temperature: Num)

  /** `DetailedWeather`: what the detail view shows of one city. The three
      temperatures are numbers and the other readings are preformatted text,
      as the detail view's props declare them. */
  datatype Detail = Detail(
    id: string, city: string, date: string, condition: string,
    temperature: Num, tempMin: Num, tempMax: Num,
    pressure: string, humidity: string, visibility: string,
    windSpeed: string, windDegree: string,
    sunrise: string, sunset: string)

  /** The settled promise of a remote fetch: its value, or a rejection. */
  datatype Fetch<T> = Resolved(value: T) | Rejected

  /** Number of cards carrying `id`. */
  function CountId(cards: seq<Card>, id: string): nat {
    if cards == [] then 0
    else (if cards[0].id == id then 1 else 0) + CountId(cards[1..], id)
  }

  /** `cards.filter((c) => c.id !== id)`: every card carrying `id` is dropped,
      every other card is kept. */
  function Without(cards: seq<Card>, id: string): (r: seq<Card>)
    ensures |r| == |cards| - CountId(cards, id)
    ensures forall c :: c in r <==> c in cards && c.id != id
  {
    if cards == [] then []
    else if cards[0].id != id then [cards[0]] + Without(cards[1..], id)
    else Without(cards[1..], id)
  }

  /** One step of the filter on a list given as its first card and the rest. */
  lemma WithoutCons(c: Card, rest: seq<Card>, id: string)
    ensures Without([c] + rest, id) == (if c.id != id then [c] else []) + Without(rest, id)
  {
    assert ([c] + rest)[0] == c;
    assert ([c] + rest)[1..] == rest;
  }

  /** Filtering distributes over concatenation, so the surviving cards keep
      their relative order. */
  lemma {:induction false} WithoutAppend(a: seq<Card>, b: seq<Card>, id: string)
    ensures Without(a + b, id) == Without(a, id) + Without(b, id)
    decreases |a|
  {
    if a == [] {
      assert a + b == b;
    } else {
      var head: seq<Card> := if a[0].id != id then [a[0]] else [];
      var t := a[1..];
      calc {
        Without(a + b, id);
      == { assert a + b == [a[0]] + (t + b); WithoutCons(a[0], t + b, id); }
        head + Without(t + b, id);
      == { WithoutAppend(t, b, id); }
        head + (Without(t, id) + Without(b, id));
      ==
        (head + Without(t, id)) + Without(b, id);
      == { assert a == [a[0]] + t; WithoutCons(a[0], t, id); }
        Without(a, id) + Without(b, id);
      }
    }
  }

  /** Removing an id no card carries returns the cards unchanged. */
  lemma {:induction false} WithoutAbsent(cards: seq<Card>, id: string)
    requires forall i :: 0 <= i < |cards| ==> cards[i].id != id
    ensures Without(cards, id) == cards
    decreases |cards|
  {
    if cards != [] {
      WithoutAbsent(cards[1..], id);
      assert [cards[0]] + cards[1..] == cards;
    }
  }

  /** Removing the same id twice is the same as removing it once. */
  lemma WithoutIdempotent(cards: seq<Card>, id: string)
    ensures Without(Without(cards, id), id) == Without(cards, id)
  {
    var r := Without(cards, id);
    assert forall i :: 0 <= i < |r| ==> r[i] in r;
    WithoutAbsent(r, id);
  }

  /** When exactly one card carries `id`, removal shortens the list by one
      and leaves no card with that id. */
  lemma WithoutUnique(cards: seq<Card>, id: string)
    requires CountId(cards, id) == 1
    ensures |Without(cards, id)| == |cards| - 1
    ensures forall c :: c in Without(cards, id) ==> c.id != id
  {
  }
}
