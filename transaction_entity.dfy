/**
 * TransactionEntity: the mutable entity the processor fills in and hands to the repository.
 * It implements Persistable, so the repository inserts it when isNew() holds and updates it
 * otherwise; the transient `isNew` flag is modelled by `isNewFlag`.
 */
module TransactionEntities {
  import opened Wrappers
  import opened FraudDomain

  /** The columns of an entity made by the no-argument constructor: all null. */
  const NullColumns: TransactionRow :=
    TransactionRow(None, "", "", "", "", 0, "", "", "", "", "", "", "", "", "", "", "")

  class TransactionEntity {
    var id: Option<nat>
    var transactionId: string
    var correlationId: string
    var accountId: string
    var customerId: string
    var amount: int
    var currency: string
    var operationType: string
    var merchantId: string
    var merchantName: string
    var mcc: string
    var terminalId: string
    var ipAddress: string
    var channel: string
    var status: string
    var responseCode: string
    var description: string
    var isNewFlag: bool

    /** The persisted columns. */
    function Columns(): TransactionRow
      reads this
    {
      TransactionRow(id, transactionId, correlationId, accountId, customerId, amount, currency,
                     operationType, merchantId, merchantName, mcc, terminalId, ipAddress, channel,
                     status, responseCode, description)
    }

    /** @NoArgsConstructor: the field initializer `isNew = true` runs; every column is null. */
    constructor ()
      ensures isNewFlag && Columns() == NullColumns
    {
      id, transactionId, correlationId, accountId, customerId := None, "", "", "", "";
      amount, currency, operationType, merchantId, merchantName := 0, "", "", "", "";
      mcc, terminalId, ipAddress, channel := "", "", "", "";
      status, responseCode, description := "", "", "";
      isNewFlag := true;
    }

    /**
     * builder()...build(): the columns come from the builder. Lombok's @Builder does not apply
     * a field initializer that lacks @Builder.Default, so the flag starts false here.
     */
    constructor Build(row: TransactionRow)
      ensures Columns() == row && !isNewFlag
    {
      id, transactionId, correlationId, accountId, customerId := row.id, row.transactionId, row.correlationId, row.accountId, row.customerId;
      amount, currency, operationType, merchantId, merchantName := row.amount, row.currency, row.operationType, row.merchantId, row.merchantName;
      mcc, terminalId, ipAddress, channel := row.mcc, row.terminalId, row.ipAddress, row.channel;
      status, responseCode, description := row.status, row.responseCode, row.description;
      isNewFlag := false;
    }

    /** Persistable.isNew(): the flag, or a missing id. */
    predicate IsNew()
      reads this
    {
      isNewFlag || id.None?
    }

    /** setAsNotNew: clears the flag and returns the same object; no column changes. */
    method SetAsNotNew() returns (self: TransactionEntity)
      modifies this
      ensures self == this
      ensures !isNewFlag && Columns() == old(Columns())
      ensures IsNew() <==> id.None?
    {
      isNewFlag := false;
      self := this;
    }
  }

  /** Whichever constructor made it, an entity without an id is new, so saving it inserts. */
  lemma IdlessEntityIsNew(e: TransactionEntity)
    requires e.Columns().id.None?
    ensures e.IsNew()
  {
  }

  /** An entity loaded with an id keeps reporting new until setAsNotNew clears the flag. */
  lemma LoadedEntityNewnessFollowsFlag(e: TransactionEntity)
    requires e.Columns().id.Some?
    ensures e.IsNew() <==> e.isNewFlag
  {
  }

  /**
   * The flag across an entity's life: built from a request (no id) it is new; once the INSERT
   * has given it an id it is not; one loaded through the no-args constructor and given an id
   * stays new until setAsNotNew.
   */
  method NewnessAcrossLifecycle(row: TransactionRow, surrogate: nat)
    returns (built: bool, inserted: bool, loaded: bool, marked: bool)
    requires row.id.None?
    ensures built && !inserted && loaded && !marked
  {
    var e := new TransactionEntity.Build(row);
    built := e.IsNew();
    e.id := Some(surrogate);
    inserted := e.IsNew();
    var fromRow := new TransactionEntity();
    fromRow.id := Some(surrogate);
    loaded := fromRow.IsNew();
    var same := fromRow.SetAsNotNew();
    marked := same.IsNew();
  }
}
