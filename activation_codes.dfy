/**
 * The activation-code table (ActivationCodeRepository and the
 * ActivationCode entity of the account module). The entity declares a
 * unique constraint on `email`, so the table is a map from email to its
 * one row; each row also carries the identity id the database generates.
 */
module ActivationCodes {
  import opened Domain

  datatype ActivationCode = ActivationCode(id: nat, email: string, code: string, expiryDate: Instant, used: bool)

  type Rows = map<string, ActivationCode>

  /** Each row sits under its own email, and ids are issued below `nextId` and never shared. */
  predicate WellFormed(rows: Rows, nextId: nat)
  {
    (forall e :: e in rows ==> rows[e].email == e && rows[e].id < nextId) &&
    (forall e, f :: e in rows && f in rows && rows[e].id == rows[f].id ==> e == f)
  }

  /** What `findByEmail` returns: the row of that email, if any. */
  function RowFor(rows: Rows, email: string): (r: Option<ActivationCode>)
    ensures r.Some? <==> email in rows
    ensures r.Some? ==> r.value == rows[email]
  {
    if email in rows then Some(rows[email]) else None
  }

  class ActivationCodeRepository {
    var rows: Rows
    var nextId: nat

    ghost predicate Valid()
      reads this
    {
      WellFormed(rows, nextId)
    }

    constructor ()
      ensures Valid() && rows == map[]
    {
      rows := map[];
      nextId := 0;
    }

    /** findByEmail */
    method FindByEmail(email: string) returns (r: Option<ActivationCode>)
      requires Valid()
      ensures r.Some? <==> email in rows
      ensures r.Some? ==> r.value == rows[email] && r.value.email == email
    {
      if email in rows {
        r := Some(rows[email]);
      } else {
        r := None;
      }
    }

    /**
     * upsertActivationCode: `INSERT ... ON CONFLICT (email) DO UPDATE`. A
     * new email gets a fresh row; an existing one keeps its row and id, with
     * the code and expiry overwritten and `used` reset. Every other row is
     * untouched. The insert draws an identity value either way.
     */
    method Upsert(email: string, code: string, expiryDate: Instant)
      requires Valid()
      modifies this
      ensures Valid()
      ensures rows.Keys == old(rows.Keys) + {email}
      ensures rows[email].code == code && rows[email].expiryDate == expiryDate && !rows[email].used
      ensures email in old(rows) ==> rows[email].id == old(rows[email].id)
      ensures email !in old(rows) ==> rows[email].id == old(nextId)
      ensures forall e :: e in old(rows) && e != email ==> rows[e] == old(rows[e])
    {
      var id := if email in rows then rows[email].id else nextId;
      rows := rows[email := ActivationCode(id, email, code, expiryDate, false)];
      nextId := nextId + 1;
    }

    /** deleteByEmail: that email's row goes, every other row stays. */
    method DeleteByEmail(email: string)
      requires Valid()
      modifies this
      ensures Valid() && nextId == old(nextId)
      ensures email !in rows
      ensures forall e :: e != email ==> (e in rows <==> e in old(rows)) && (e in rows ==> rows[e] == old(rows[e]))
    {
      rows := rows - {email};
    }

    /** `delete(entity)`: removes the row with the entity's id, if it is still there. */
    method Delete(ac: ActivationCode)
      requires Valid()
      modifies this
      ensures Valid() && nextId == old(nextId)
      ensures ac.email in old(rows) && old(rows[ac.email]).id == ac.id ==> rows == old(rows) - {ac.email}
      ensures !(ac.email in old(rows) && old(rows[ac.email]).id == ac.id) ==> rows == old(rows)
    {
      if ac.email in rows && rows[ac.email].id == ac.id {
        rows := rows - {ac.email};
      }
    }

    /** `setUsed(true)` then `save(entity)` on a row read from the table. */
    method MarkUsed(ac: ActivationCode)
      requires Valid() && ac.email in rows && rows[ac.email] == ac
      modifies this
      ensures Valid() && nextId == old(nextId)
      ensures rows == old(rows)[ac.email := ac.(used := true)]
    {
      rows := rows[ac.email := ac.(used := true)];
    }

    /** Transaction rollback: the rows return to a snapshot; identity values already drawn stay drawn. */
    method Restore(snapshot: Rows)
      requires Valid() && WellFormed(snapshot, nextId)
      modifies this
      ensures Valid() && rows == snapshot && nextId == old(nextId)
    {
      rows := snapshot;
    }
  }
}
