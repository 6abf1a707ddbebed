/** The ways the accounting services fail. */
module Errors {

  datatype Error =
    | NotFound
    | CompanyNotActive | BranchNotActive | BranchOfOtherCompany
    | AccountNotInCompany | AccountInactive
    | ParentNotInCompany | OwnParent | CircularHierarchy | CodeExists
    | NoLines | NegativeAmount | NotOneSided | Unbalanced
    | NotDraft | YearClosed | PeriodLocked
    | NoCashAccount | CashAccountUnresolved
    | NoCustomer | NoReceivableAccount | ReceivableAccountUnresolved
    | NoSupplier | NoPayableAccount | PayableAccountUnresolved
    | RefundNotPostable
    | DuplicateSource | DuplicateNumber | OutOfRange | ForeignKey
}
