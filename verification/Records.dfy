/** The documents that the ledger, the rebuild script and the cycle report share. */
module Records {

  /** A document id of the students collection. */
  type StudentId = nat

  /** An element of paymentHistory.  The student schema has no invoiceId field in
      its history elements, so only these two parts are stored. */
  datatype Entry = Entry(paymentId: nat, payId: string)

  datatype Payment = Payment(
    id: nat,
    studentId: StudentId,
    studentName: string,
    classId: string,
    className: string,
    section: string,
    amount: int,
    paymentDate: int,
    createdBy: string,
    paymentType: string,
    payId: string,
    invoiceId: string,
    createdAt: int)

  datatype Student = Student(
    name: string,
    classId: string,
    className: string,
    section: string,
    tuitionFee: int,
    feeType: string,
    version: nat,
    history: seq<Entry>)

  /** What one request reads from the clock: the instant, the last midnight
      before it and the MMYY billing month it falls in. */
  datatype Clock = Clock(now: int, midnight: int, payId: string)

  function Amount(): Payment -> int {
    (p: Payment) => p.amount
  }

  function Id(): Payment -> nat {
    (p: Payment) => p.id
  }

  /** The key of the unique (studentId, payId) index. */
  function Slot(): Payment -> (StudentId, string) {
    (p: Payment) => (p.studentId, p.payId)
  }

  /** The key of the unique invoiceId index. */
  function Invoice(): Payment -> string {
    (p: Payment) => p.invoiceId
  }

  function OwnedBy(s: StudentId): Payment -> bool {
    (p: Payment) => p.studentId == s
  }

  function EntryOf(p: Payment): Entry {
    Entry(p.id, p.payId)
  }
}
