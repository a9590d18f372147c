/** The document type registry and the questions posting asks of a type and its stock effect. */
module DocumentTypes {
  datatype DocType =
    | OpeningStock | StockTransfer | StockJournal | PhysicalAdjustment | WriteOff | WriteIn | Consumption
    | MaterialIssue | MaterialReceipt | Production | Assembly | Disassembly | JobWorkOut | JobWorkIn
    | BatchAdjustment | SerialAdjustment | Revaluation | LandedCost | Reservation | ReservationRelease
    | DeliveryChallan | InwardChallan | Packing
    | SalesIssue | PurchaseReceipt | SalesReturn | PurchaseReturn | JournalAdjustment

  datatype LineMode = FixedIn | FixedOut | ByLine | Transfer | StatusOnly | PendingOnly

  datatype StockEffect =
    | Unset | OnInvoice | Physical | ChallanOnly | SettleDeferred | DeferInward | FromChallan | FromPhysicalChallan
    | FromPacking | OtherEffect(name: string)

  datatype FlowClass = FlowReceipt | FlowIssue | FlowTransfer | FlowAdjustment | FlowNone

  function LineModeOf(t: DocType): LineMode
  {
    match t
    case OpeningStock | WriteIn | MaterialReceipt | PurchaseReceipt | SalesReturn => FixedIn
    case WriteOff | Consumption | MaterialIssue | SalesIssue | PurchaseReturn => FixedOut
    case StockTransfer => Transfer
    case StockJournal | PhysicalAdjustment | Production | Assembly | Disassembly | JobWorkIn | BatchAdjustment
       | SerialAdjustment | JournalAdjustment => ByLine
    case DeliveryChallan | InwardChallan => PendingOnly
    case JobWorkOut | Revaluation | LandedCost | Reservation | ReservationRelease | Packing => StatusOnly
  }

  predicate CarriesValuation(t: DocType)
  {
    match t
    case JobWorkOut | BatchAdjustment | SerialAdjustment | Packing => false
    case Reservation | ReservationRelease | DeliveryChallan | InwardChallan => false
    case _ => true
  }

  predicate ValuesMovedStock(t: DocType) { t.InwardChallan? }

  function FlowClassOf(t: DocType): FlowClass
  {
    if t.Revaluation? || t.LandedCost? then FlowAdjustment
    else
      match LineModeOf(t)
      case FixedIn => FlowReceipt
      case FixedOut => FlowIssue
      case Transfer => FlowTransfer
      case ByLine => FlowAdjustment
      case StatusOnly | PendingOnly => FlowNone
  }

  predicate MovesStockNow(t: DocType, e: StockEffect)
  {
    match t
    case DeliveryChallan => e.Physical?
    case InwardChallan => e.SettleDeferred? || e.Physical?
    case PurchaseReceipt => !e.DeferInward?
    case SalesIssue | SalesReturn | PurchaseReturn => !e.FromPhysicalChallan?
    case JobWorkOut | Packing | Reservation | ReservationRelease => false
    case Revaluation | LandedCost | BatchAdjustment | SerialAdjustment => false
    case _ => !LineModeOf(t).StatusOnly? && !LineModeOf(t).PendingOnly?
  }

  /** Does posting or reversing a document touch valuation? */
  predicate ValuesLines(t: DocType, e: StockEffect)
  {
    CarriesValuation(t) || (ValuesMovedStock(t) && MovesStockNow(t, e))
  }

  /** Do the document's own lines carry a valuation once it is posted? */
  predicate ValuesLinesNow(t: DocType, e: StockEffect)
  {
    ValuesLines(t, e) && (t.Revaluation? || MovesStockNow(t, e))
  }

  datatype Flow = In | Out | Neither

  /** The direction given to the lines of a type that moves nothing by itself. */
  function StatusDirection(t: DocType): Flow
  {
    match t
    case DeliveryChallan | JobWorkOut | Packing | Reservation => Out
    case InwardChallan | ReservationRelease => In
    case _ => Neither
  }

  /** All that entry and posting ask about a document's type and stock effect. */
  datatype Behaviour = Behaviour(
    lineMode: LineMode, statusDirection: Flow, valuation: bool, moves: bool, valuesLines: bool, allocation: bool)

  function BehaviourOf(t: DocType, e: StockEffect): Behaviour
  {
    Behaviour(LineModeOf(t), StatusDirection(t), CarriesValuation(t), MovesStockNow(t, e), ValuesLines(t, e),
              t.LandedCost?)
  }

  /** What every entry of the registry has in common. */
  predicate Registered(b: Behaviour)
  {
    && (b.valuation ==> b.valuesLines)
    && (b.valuation && (b.lineMode.StatusOnly? || b.lineMode.PendingOnly?) ==> !b.moves)
    && (b.allocation ==> !b.moves)
  }

  /** The flow a type's value is counted under. */
  lemma FlowsOfTypes(t: DocType)
    ensures FlowClassOf(t) == FlowReceipt
      <==> t.OpeningStock? || t.WriteIn? || t.MaterialReceipt? || t.PurchaseReceipt? || t.SalesReturn?
    ensures FlowClassOf(t) == FlowIssue
      <==> t.WriteOff? || t.Consumption? || t.MaterialIssue? || t.SalesIssue? || t.PurchaseReturn?
    ensures FlowClassOf(t) == FlowTransfer <==> t.StockTransfer?
    ensures FlowClassOf(t) == FlowNone
      <==> t.DeliveryChallan? || t.InwardChallan? || t.JobWorkOut? || t.Packing? || t.Reservation?
           || t.ReservationRelease?
  {
  }

  /** Types that move their stock whenever they post. */
  predicate PlainlyMoves(t: DocType)
  {
    || t.OpeningStock? || t.WriteIn? || t.WriteOff? || t.Consumption? || t.MaterialIssue? || t.MaterialReceipt?
    || t.StockTransfer? || t.StockJournal? || t.PhysicalAdjustment? || t.Production? || t.Assembly? || t.Disassembly?
    || t.JobWorkIn? || t.JournalAdjustment?
  }

  /** A challan moves goods when it is physical, an invoice unless its goods moved, or will move, by challan. */
  lemma WhatMovesNow(t: DocType, e: StockEffect)
    ensures t.DeliveryChallan? ==> (MovesStockNow(t, e) <==> e == Physical)
    ensures t.InwardChallan? ==> (MovesStockNow(t, e) <==> e == Physical || e == SettleDeferred)
    ensures t.PurchaseReceipt? ==> (MovesStockNow(t, e) <==> e != DeferInward)
    ensures t.SalesIssue? || t.SalesReturn? || t.PurchaseReturn? ==> (MovesStockNow(t, e) <==> e != FromPhysicalChallan)
    ensures t.Revaluation? || t.LandedCost? || t.BatchAdjustment? || t.SerialAdjustment? ==> !MovesStockNow(t, e)
    ensures FlowClassOf(t) == FlowNone && !t.DeliveryChallan? && !t.InwardChallan? ==> !MovesStockNow(t, e)
    ensures PlainlyMoves(t) ==> MovesStockNow(t, e)
  {
  }

  /** What carries a value: all but what only promises, packs or renumbers; a goods challan when it moves the goods. */
  lemma WhatIsValued(t: DocType, e: StockEffect)
    ensures CarriesValuation(t) <==>
      !(t.JobWorkOut? || t.BatchAdjustment? || t.SerialAdjustment? || t.Packing? || t.Reservation?
        || t.ReservationRelease?
        || t.DeliveryChallan? || t.InwardChallan?)
    ensures ValuesLines(t, e)
      <==> CarriesValuation(t) || (t.InwardChallan? && (e == Physical || e == SettleDeferred))
    ensures ValuesLinesNow(t, e) <==> t.Revaluation? || (ValuesLines(t, e) && MovesStockNow(t, e))
    ensures StatusDirection(t) == Out <==> t.DeliveryChallan? || t.JobWorkOut? || t.Packing? || t.Reservation?
    ensures StatusDirection(t) == In <==> t.InwardChallan? || t.ReservationRelease?
  {
  }

  lemma EveryTypeIsRegistered(t: DocType, e: StockEffect)
    ensures Registered(BehaviourOf(t, e))
  {
  }

  predicate Capitalises(b: Behaviour) { b.valuation && b.moves }
}
