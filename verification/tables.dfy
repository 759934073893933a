/** The status enumerations of the tables. */
module Tables {
  // t_order_info
  datatype ActionType = Mint | Renew | CouponCreate

  datatype OrderStatus = Default | Success | Fail | Closed

  // t_payment_info
  datatype PayHashStatus = Pending | Confirmed | Rejected | FailByDispute

  datatype RefundStatus = NoRefund | UnRefund | Refunding | Refunded

  // t_smt_record_info
  datatype RecordType = RecordDefault | RecordClosed | RecordChain

  /** The unique key of the record table. */
  datatype RecordKey = RecordKey(accountId: string, nonce: nat, recordType: RecordType, recordBN: nat)

  // t_task_info
  datatype TaskType = TaskDelegate | TaskChain | TaskClosed

  datatype SmtStatus = NeedToWrite | Writing | WriteComplete | NeedToRollback | RollbackComplete

  datatype TxStatus = UnSend | TxPending | Committed | TxRejected
}
