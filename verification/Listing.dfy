/** Listing jobs as a client does it: each page asked for with the cursor text of the one before. */
module Listing {
  import opened Wrappers
  import opened Strings
  import opened Pagination
  import Cursor

  /** How the database writes a row's moment and id, and reads them in a filter. */
  datatype Wire = Wire(show: Key -> Cursor.Position, read: Cursor.Position -> Option<Key>)

  /** All that is asked of it: it reads back what it wrote. */
  ghost predicate ReadsBack(wire: Wire) { forall k: Key :: wire.read(wire.show(k)) == Some(k) }

  function NextCursor(wire: Wire, next: Option<Key>): Option<Text> {
    if next.None? then None else Some(Cursor.EncodeCursor(wire.show(next.value)))
  }

  /** Where a request's cursor text says to start; an error if it says nothing. */
  function StartOf(wire: Wire, parse: Cursor.JsonParser, raw: Option<Text>): Result<Option<Key>, string> {
    match Cursor.DecodeCursor(parse, raw)
    case Err(e) => Err(e)
    case Ok(None) => Ok(None)
    case Ok(Some(p)) => if wire.read(p).None? then Err("the database cannot read it") else Ok(wire.read(p))
  }

  lemma IssuedCursorIsRead(wire: Wire, parse: Cursor.JsonParser, next: Option<Key>)
    requires ReadsBack(wire) && Cursor.ReadsBack(parse)
    ensures StartOf(wire, parse, NextCursor(wire, next)) == Ok(next)
  {
    hide Cursor.EncodeCursor, Cursor.DecodeCursor, Cursor.ReadsBack;
    if next.Some? {
      Cursor.CursorRoundTrip(parse, wire.show(next.value));
    } else {
      NoCursorIsTheStart(parse);
    }
  }

  lemma NoCursorIsTheStart(parse: Cursor.JsonParser)
    ensures Cursor.DecodeCursor(parse, None) == Ok(None)
  {
  }

  /** Each request sends the text it was answered with, none of them is refused, and the last answer has
      none. */
  predicate FollowsText(wire: Wire, parse: Cursor.JsonParser, visits: seq<Visit>, f: Filter, raw: Option<Text>, limit: nat)
    requires limit >= 1
  {
    && visits != []
    && WellKept(visits[0].table)
    && StartOf(wire, parse, raw).Ok?
    && Selects(visits[0].rows, visits[0].table, f, StartOf(wire, parse, raw).value, limit + 1)
    && var next := NextCursor(wire, PageOf(visits[0].rows, limit).next);
       if next.None? then |visits| == 1 else FollowsText(wire, parse, visits[1..], f, next, limit)
  }

  /** The text between two pages loses nothing: what a client that sends cursors back goes through is what
      following the keys themselves is. */
  lemma {:induction false} TextFollowsKeys(wire: Wire, parse: Cursor.JsonParser, visits: seq<Visit>, f: Filter, cursor: Option<Key>, limit: nat)
    requires limit >= 1 && ReadsBack(wire) && Cursor.ReadsBack(parse)
    ensures FollowsText(wire, parse, visits, f, NextCursor(wire, cursor), limit) <==> Follows(visits, f, cursor, limit)
  {
    hide ReadsBack, Cursor.ReadsBack, Selects, StartOf, Cursor.EncodeCursor;
    IssuedCursorIsRead(wire, parse, cursor);
    if visits != [] { TextFollowsKeys(wire, parse, visits[1..], f, PageOf(visits[0].rows, limit).next, limit); }
  }

  /** A client that starts without a cursor and sends each one back lists every row that stayed exactly
      once, whatever else the table did meanwhile. */
  lemma ClientListsStayedRowsOnce(wire: Wire, parse: Cursor.JsonParser, visits: seq<Visit>, f: Filter, limit: nat, key: Key)
    requires limit >= 1 && ReadsBack(wire) && Cursor.ReadsBack(parse) && FollowsText(wire, parse, visits, f, None, limit)
    requires forall v :: v in visits ==> key.id in v.table && v.table[key.id].key == key && Matches(v.table[key.id], f)
    ensures exists i :: HoldsOnlyAt(Listed(visits, limit), key, i)
    ensures Descending(Listed(visits, limit))
  {
    hide FollowsText, Follows, Matches, HoldsOnlyAt, Listed, Descending, ReadsBack, Cursor.ReadsBack;
    TextFollowsKeys(wire, parse, visits, f, None, limit);
    StayedRowsAreListedOnce(visits, f, limit, key);
    NoRowTwice(visits, f, None, limit);
  }
}
