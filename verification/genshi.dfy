/** The parts of the Genshi markup library the plugin relies on, as values:
    stream events, rendered markup, and a stream with its pending filters.
    Which events a path selector matches is not modelled; the matched
    fragments are given. */
module Genshi {

  datatype Kind = Start | End | Text

  /** Event data: a tag name with its attributes (START, END) or text (TEXT). */
  datatype Data = Tag(name: string, attrs: seq<(string, string)>) | Chars(text: string)

  /** A stream event `(kind, data)`; source positions are not modelled. */
  datatype Event = Event(kind: Kind, data: Data)

  /** What a renderer returns: a stream of events, or an element built with
      `tag.div(children...)`. */
  datatype Markup = Events(events: seq<Event>) | Div(children: seq<Markup>)

  /** A stream and the filters `stream |= f` has queued on it, in order;
      Genshi applies them lazily when the stream is serialised. */
  datatype Stream<F> = Stream(source: seq<Event>, pipeline: seq<F>)

  /** `chain([fragment[0]], inserted, fragment[1:])`: the inserted events go
      right after the fragment's opening event. */
  function InsertAfterFirst(fragment: seq<Event>, inserted: seq<Event>): (r: seq<Event>)
    requires fragment != []
    ensures |r| == |fragment| + |inserted|
    ensures r[0] == fragment[0]
    ensures r[1..1 + |inserted|] == inserted
    ensures r[1 + |inserted|..] == fragment[1..]
  {
    [fragment[0]] + inserted + fragment[1..]
  }

  /** Drops the `n` events that follow the opening event. */
  function RemoveAfterFirst(spliced: seq<Event>, n: nat): (r: seq<Event>)
    requires 1 + n <= |spliced|
    ensures |r| == |spliced| - n
  {
    [spliced[0]] + spliced[1 + n..]
  }

  /** Inserting after the first event loses nothing and reorders nothing:
      removing the inserted run gives the fragment back. */
  lemma InsertThenRemove(fragment: seq<Event>, inserted: seq<Event>)
    requires fragment != []
    ensures RemoveAfterFirst(InsertAfterFirst(fragment, inserted), |inserted|) == fragment
  {
    var r := InsertAfterFirst(fragment, inserted);
    assert [fragment[0]] + fragment[1..] == fragment;
  }
}
