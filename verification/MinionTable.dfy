/** The `minion` table that all brokers share, as far as the two presence protocols use it. */
module MinionTable {

  /** `Abnormal` stands for any value other than the four the code names. */
  datatype Status = Offline | Online | Inactive | Deleted | Abnormal

  datatype Row = Row(status: Status, broker: int)

  /** The answer of one SQL statement: one whose answer is an error may still have been applied. */
  datatype Reply = Answered | Failed(applied: bool)

  predicate IsOnline(rows: map<int, Row>, m: int) {
    m in rows && rows[m].status.Online?
  }

  /** Looking a minion up and creating its row if there is none: the table afterwards. */
  function Created(rows: map<int, Row>, m: int, create: Reply): map<int, Row> {
    if m in rows || create == Failed(false) then rows else rows[m := Row(Offline, 0)]
  }

  /** That returns a row. */
  predicate Finds(rows: map<int, Row>, m: int, create: Reply) {
    m in rows || create.Answered?
  }

  /** UPDATE minion SET status = offline WHERE broker_id = b AND status = online. */
  function ResetRows(rows: map<int, Row>, b: int, reply: Reply): map<int, Row> {
    map m | m in rows ::
      if rows[m] == Row(Online, b) && reply != Failed(false) then Row(Offline, b) else rows[m]
  }

  /** The online rows nobody is responsible for once broker b has died: those of before and b's own. */
  function Unowned(rows: map<int, Row>, lost: set<int>, b: int): set<int> {
    set m | m in rows && rows[m].status.Online? && (m in lost || rows[m].broker == b)
  }

  /** What is left of the hubs when broker b dies. */
  function Survivors(hub: map<(int, int), nat>, b: int): map<(int, int), nat> {
    map k | k in hub && k.0 != b :: hub[k]
  }
}
