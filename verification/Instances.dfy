/** The instantiated data model: what the parser hands to the code generator. */
module Instances {
  import opened Text

  datatype Trigger = Trigger(dchg: bool, qchg: bool, dupd: bool)

  /** Basic types are told apart by their tag only; the generator branches on none of them. */
  datatype AttributeType = Basic(tag: nat) | Constructed | Enumerated

  /** `slot` names the shared Value field of the attribute's definition: every instance
      unfolded from one definition carries the same slot. */
  datatype DataAttribute = DataAttribute(
    name: string, fc: string, attrType: AttributeType, count: int, trigger: Trigger,
    value: Option<Scalar>, shortAddress: string, slot: nat, subs: seq<DataAttribute>)

  datatype Scalar = Ordinal(ord: int) | Literal(text: string) | Unset

  datatype DataObject = DataObject(
    name: string, count: int, trans: bool,
    sdos: seq<DataObject>, das: seq<DataAttribute>)

  datatype ReportControl = ReportControl(name: string, indexed: bool, rptEnabledMax: Option<int>)
  datatype GseControl = GseControl(name: string)
  datatype SmvControl = SmvControl(name: string)
  datatype LogControl = LogControl(name: string, datSet: string)
  datatype Log = Log(name: string)
  datatype SettingControl = SettingControl(actSG: int, numOfSGs: int)
  datatype Fcda = Fcda(ldInst: string, variable: string)
  datatype DataSet = DataSet(name: string, fcdas: seq<Fcda>)

  datatype LogicalNode = LogicalNode(
    prefix: string, lnClass: string, inst: string,
    dos: seq<DataObject>,
    dataSets: seq<DataSet>, reports: seq<ReportControl>, gses: seq<GseControl>,
    smvs: seq<SmvControl>, lcbs: seq<LogControl>, logs: seq<Log>, settings: seq<SettingControl>)
  {
    function Name(): string { prefix + lnClass + inst }
  }

  datatype LogicalDevice = LogicalDevice(inst: string, lns: seq<LogicalNode>)
}
