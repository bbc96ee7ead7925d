/**
 * The waitlist table behind `prisma.waitlistEntry.upsert` and the
 * merge-upsert rule the endpoint asks of it: a new e-mail gets a new row
 * built from the payload; an existing row takes the new feedback only when
 * it has text after trimming, and the new pain points only when the list
 * is non-empty, so blanks never erase what is stored.
 */
module WaitlistStore {
  import opened Wrappers
  import opened Text
  import opened WaitlistSchema

  /** A row of the table; `None` stands for the stored `null`. */
  datatype Entry = Entry(email: string, feedback: Option<string>, painPoints: seq<string>)

  /** The guard of the conditional spread `...(data.feedback && data.feedback.trim() && { feedback })`. */
  predicate UpdatesFeedback(p: Payload)
    ensures UpdatesFeedback(p) <==>
              p.feedback.Some? && exists i :: 0 <= i < |p.feedback.value| && !IsWhitespace(p.feedback.value[i])
  {
    p.feedback.Some? && HasText(p.feedback.value)
  }

  /** The `create` record: the supplied values, `null` and `[]` by default.
      Nothing is trimmed, so blank feedback is stored as sent. */
  function NewEntry(p: Payload): (e: Entry)
    ensures e.email == p.email
    ensures e.feedback == p.feedback
    ensures p.painPoints.Some? ==> e.painPoints == p.painPoints.value
    ensures p.painPoints.None? ==> e.painPoints == []
  {
    Entry(p.email, p.feedback, p.painPoints.GetOr([]))
  }

  /** The `update` record applied to the stored row: feedback with text
      replaces the stored feedback, a non-empty list replaces the stored list
      wholesale (the guard `data.painPoints && data.painPoints.length > 0`;
      an empty array is truthy in JavaScript, so only its length rules it
      out), and anything else keeps the stored value. */
  function Merge(e: Entry, p: Payload): (r: Entry)
    ensures r.email == e.email
    ensures UpdatesFeedback(p) ==> r.feedback == p.feedback
    ensures !UpdatesFeedback(p) ==> r.feedback == e.feedback
    ensures p.painPoints.Some? && p.painPoints.value != [] ==> r.painPoints == p.painPoints.value
    ensures !(p.painPoints.Some? && p.painPoints.value != []) ==> r.painPoints == e.painPoints
  {
    e.(feedback := if UpdatesFeedback(p) then p.feedback else e.feedback,
       painPoints := if p.painPoints.Some? && p.painPoints.value != [] then p.painPoints.value else e.painPoints)
  }

  /** The table is keyed by e-mail: each row sits under its own address. */
  ghost predicate KeyedByEmail(rows: map<string, Entry>) {
    forall e :: e in rows ==> rows[e].email == e
  }

  /** The table after `upsert` with `where: { email }`: exactly one row
      for the e-mail, created or merged, and every other row as it was. */
  function Upserted(rows: map<string, Entry>, p: Payload): (r: map<string, Entry>)
    ensures r.Keys == rows.Keys + {p.email}
    ensures forall e :: e in rows && e != p.email ==> r[e] == rows[e]
    ensures p.email !in rows ==> |r| == |rows| + 1 && r[p.email] == NewEntry(p)
    ensures p.email in rows ==> |r| == |rows| && r[p.email] == Merge(rows[p.email], p)
    ensures KeyedByEmail(rows) ==> KeyedByEmail(r)
  {
    rows[p.email := if p.email in rows then Merge(rows[p.email], p) else NewEntry(p)]
  }

  /** Upserting the same payload twice has the effect of upserting it once,
      so a repeated submission changes nothing more. */
  lemma UpsertIdempotent(rows: map<string, Entry>, p: Payload)
    ensures Upserted(Upserted(rows, p), p) == Upserted(rows, p)
  {
    var once := Upserted(rows, p);
    var row := once[p.email];
    assert Merge(row, p) == row;
    assert Upserted(once, p) == once[p.email := row];
    assert once[p.email := row] == once;
  }

  /** Blanks never erase data: feedback with text and a non-empty pain-point
      list stay with text and non-empty across any upsert. */
  lemma UpsertNeverErases(rows: map<string, Entry>, p: Payload, e: string)
    requires e in rows
    ensures rows[e].feedback.Some? && HasText(rows[e].feedback.value) ==>
              Upserted(rows, p)[e].feedback.Some? && HasText(Upserted(rows, p)[e].feedback.value)
    ensures |rows[e].painPoints| > 0 ==> |Upserted(rows, p)[e].painPoints| > 0
  {
    var stored := rows[e];
    var row := Upserted(rows, p)[e];
    if e == p.email {
      assert row == Merge(stored, p);
    } else {
      assert row == stored;
    }
  }

  /**
   * The stored table. The model keeps only the rows as a map; the
   * database connection behind them is outside the model.
   */
  class Table {
    var rows: map<string, Entry>

    ghost predicate Valid()
      reads this
    {
      KeyedByEmail(rows)
    }

    constructor ()
      ensures Valid() && rows == map[]
    {
      rows := map[];
    }

    /**
     * `prisma.waitlistEntry.upsert`. When the datastore cannot be reached
     * (`available` false) the call fails and nothing is written; otherwise
     * the table becomes `Upserted` and the resulting row is returned.
     */
    method Upsert(p: Payload, available: bool) returns (r: Option<Entry>)
      requires Valid()
      modifies this
      ensures Valid()
      ensures !available ==> r == None && rows == old(rows)
      ensures available ==> rows == Upserted(old(rows), p) && r == Some(rows[p.email])
      ensures r.Some? ==> r.value.email == p.email
    {
      if !available {
        return None;
      }
      rows := Upserted(rows, p);
      r := Some(rows[p.email]);
    }
  }
}
