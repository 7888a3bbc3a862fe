/** Results of a transaction step: a value, or the error the step throws. */
module Outcomes {

  datatype Option<+T> = None | Some(value: T)

  /** One constructor per error class (or error code) the modelled code throws. */
  datatype Error =
    | NotFound
    | StatusConflict
    | InvalidTarget
    | InvalidReceipt
    | InsufficientStock
    | IdempotencyConflict
    | DuplicateLine
    | ReceiptExceedsPending
    | DiscrepancyReasonRequired
    | NegativeValuationQuantity
    | NegativeValuationValue
    | CostNotFound
    | CurrencyMismatch
    | LayerShortage
    | LayerCeiling
    | DuplicateAllocation
    | ReturnSourceNotFound
    | LotRequired
    | LotNotFound
    | LotExpired
    | LotStockShortage
    | LotSourceNotFound
    | LotRestoreMismatch
    | NegativeLotCost
    | InvalidLotCode
    | InvalidLotDates
    | ExpirationRequired
    | SerialRequired
    | SerialQuantity
    | SerialDuplicate
    | SerialNotFound
    | SerialStateConflict
    | ImportHasErrors
    | ImportStale
    | CountIncomplete
    | CountStockChanged
    | KitNotFound
    | KitNotAssembled
    | ReferenceRequired
    | InitialStockExists
    | InvalidStateTransition
    | InvalidQuantity
    | InvalidPolicy
    | BelowMinimum
    | PaymentNotFound
    | PaymentStateInvalid
    | ReconciliationRequired
    | AmountInvalid
    | RefundAmountInvalid
    | UnclosedQuote
    | InvalidVariants
    | DuplicateEvent
    | InvalidKey
    | WebhookRejected

  datatype Result<+T> = Ok(value: T) | Err(error: Error)
}
