/**
 * The constant tables of the offline point and function definition converter: the DNP3
 * data types and their default group and variation, the function code names of the
 * MESA-ESS spreadsheets, and the per-row and per-function overrides applied while
 * converting them.
 */
module ConverterConstants {
  import opened Wrappers

  const MaxSchedules := 10
  /** The rows reserved for each array. */
  const MaxArrayPoints := 100

  /** The four DNP3 data types, one spreadsheet worksheet each. */
  datatype DataType = AI | AO | BI | BO

  function DataTypeName(dt: DataType): (r: string)
    ensures |r| == 2
  {
    match dt
    case AI => "AI"
    case AO => "AO"
    case BI => "BI"
    case BO => "BO"
  }

  /** The data type a two-character worksheet name stands for. */
  function DataTypeNamed(name: string): (r: Option<DataType>)
    ensures r.Some? ==> DataTypeName(r.value) == name
    ensures forall dt :: DataTypeName(dt) == name ==> r == Some(dt)
  {
    if name == "AI" then Some(AI)
    else if name == "AO" then Some(AO)
    else if name == "BI" then Some(BI)
    else if name == "BO" then Some(BO)
    else None
  }

  /** The DNP3 object group every point of a data type is given. */
  function DefaultGroup(dt: DataType): (r: int)
  {
    match dt
    case AI => 30
    case AO => 40
    case BI => 1
    case BO => 10
  }

  /** The DNP3 variation every point of a data type is given. */
  function DefaultVariation(dt: DataType): int
  {
    2
  }

  /** Only the Analog Output and Binary Output groups hold output points. */
  predicate IsOutputGroup(group: int)
  {
    group == 40 || group == 10
  }

  lemma OutputGroupsAreOutputTypes(dt: DataType)
    ensures IsOutputGroup(DefaultGroup(dt)) <==> dt == AO || dt == BO
  {
  }

  /** The last spreadsheet row read from each worksheet. */
  function LastRow(dt: DataType): int
  {
    match dt
    case AI => 275
    case AO => 223
    case BI => 93
    case BO => 42
  }

  /**
   * The function code a spreadsheet cell names: Some(None) for a blank code, which is
   * dropped, and None for a name the table does not have.
   */
  function FcodeMap(cell: string): Option<Option<string>>
  {
    if cell == "Direct Operate / Response " || cell == "Direct Operate /Response " then Some(Some("direct_operate"))
    else if cell == "Operate / Response " || cell == " Operate / Response " then Some(Some("operate"))
    else if cell == "Select / Response" then Some(Some("select"))
    else if cell == " " then Some(None)
    else None
  }

  /** Unique strings that do not make a point name. */
  const BadPointNames: seq<string> := [".", "#REF!", "1.", "7.", "10."]

  datatype PointKind = ArrayKind | SelectorBlockKind

  /**
   * Properties of a spreadsheet row's point that replace or add to what the row says; a
   * skipped row yields no point.
   */
  datatype PointOverride = PointOverride(
    skip: bool,
    index: Option<int>,
    name: Option<string>,
    kind: Option<PointKind>,
    description: Option<string>,
    timesRepeated: Option<int>,
    columns: Option<seq<string>>,
    selectorStart: Option<int>,
    selectorEnd: Option<int>)

  /** A row without overrides. */
  const NoOverride := PointOverride(false, None, None, None, None, None, None, None, None)

  /** Extra data of one function step: the point name it uses instead of the spreadsheet's, and its action. */
  datatype StepExtra = StepExtra(name: Option<string>, action: Option<string>)

  /** Extra data of one function: its reference, its support point, and extra data by step number. */
  datatype FunctionData = FunctionData(reference: string, supportPoint: Option<string>, steps: map<int, StepExtra>)

  /** The value of one element of a function's extra data: a text, or the table of its steps. */
  datatype ExtraValue = Text(text: string) | StepTable(steps: map<int, StepExtra>)

  /** Overrides for the AI worksheet, keyed by spreadsheet row. */
  function ExtraAIRow(row: int): Option<PointOverride>
  {
    match row
    case 0 => Some(PointOverride(false, Some(443), None, None, None, None, None, None, None))
    case 2 => Some(PointOverride(false, Some(444), None, None, None, None, None, None, None))
    case 3 => Some(PointOverride(false, Some(445), None, None, None, None, None, None, None))
    case 6 => Some(PointOverride(false, None, Some("DCTE.1"), None, None, None, None, None, None))
    case 31 => Some(PointOverride(false, None, Some("DOPR.ECPNomHz.1"), None, None, None, None, None, None))
    case 58 => Some(PointOverride(false, None, Some("RDGS.DbVMax.1"), None, None, None, None, None, None))
    case 65 => Some(PointOverride(false, None, Some("RDGS.HoldTmms.1"), None, None, None, None, None, None))
    case 93 => Some(PointOverride(false, None, Some("DCHD.WTgt.1"), None, None, None, None, None, None))
    case 94 => Some(PointOverride(false, None, Some("DCHD.WinTms.1"), None, None, None, None, None, None))
    case 95 => Some(PointOverride(false, None, Some("DCHD.RmpTms.1"), None, None, None, None, None, None))
    case 97 => Some(PointOverride(false, None, Some("DCHD.RmpUpRte.1"), None, None, None, None, None, None))
    case 98 => Some(PointOverride(false, None, Some("DCHD.RmpDnRte.1"), None, None, None, None, None, None))
    case 99 => Some(PointOverride(false, None, Some("DCHD.ChaRmpUpRte.1"), None, None, None, None, None, None))
    case 165 => Some(PointOverride(false, None, Some("DWSM.RmpTms.1"), None, None, None, None, None, None))
    case 218 => Some(PointOverride(false, None, Some("DPFC.PFCorRef.rangeC.1"), None, None, None, None, None, None))
    case 230 => Some(PointOverride(false, Some(227), None, Some(SelectorBlockKind), None, None, None, Some(227), Some(442)))
    case 246 => Some(PointOverride(false, Some(243), Some("FMAR.in.PairArray.CsvPts"), Some(ArrayKind), Some("Curve Points"), Some(100), Some(["FMAR.in.PairArray.CsvPts.xVal", "FMAR.in.PairArray.CsvPts.yVal"]), None, None))
    case 247 => Some(PointOverride(true, None, None, None, None, None, None, None, None))
    case 248 => Some(PointOverride(true, None, None, None, None, None, None, None, None))
    case 249 => Some(PointOverride(true, None, None, None, None, None, None, None, None))
    case 250 => Some(PointOverride(true, None, None, None, None, None, None, None, None))
    case 251 => Some(PointOverride(true, None, None, None, None, None, None, None, None))
    case 252 => Some(PointOverride(true, None, None, None, None, None, None, None, None))
    case 253 => Some(PointOverride(true, None, None, None, None, None, None, None, None))
    case 254 => Some(PointOverride(false, Some(446), Some("FSCC.in.CtlSchdSt.EditSelector"), Some(SelectorBlockKind), None, None, None, Some(446), Some(655)))
    case 255 => Some(PointOverride(false, Some(447), Some("FSCC.in.CtlSchdSt.SelectedSchedulePriority"), None, None, None, None, None, None))
    case 256 => Some(PointOverride(false, Some(448), Some("FSCC.in.CtlSchdSt.SelectedScheduleType"), None, None, None, None, None, None))
    case 257 => Some(PointOverride(false, Some(449), Some("FSCC.in.CtlSchdSt.SelectedScheduleStartTimeLong1"), None, None, None, None, None, None))
    case 258 => Some(PointOverride(false, Some(450), Some("FSCC.in.CtlSchdSt.SelectedScheduleStartTimeLong2"), None, None, None, None, None, None))
    case 259 => Some(PointOverride(false, Some(451), Some("FSCC.in.CtlSchdSt.SelectedScheduleRepeatInterval"), None, None, None, None, None, None))
    case 260 => Some(PointOverride(false, Some(452), Some("FSCC.in.CtlSchdSt.SelectedScheduleRepeatIntervalUnits"), None, None, None, None, None, None))
    case 261 => Some(PointOverride(false, Some(453), Some("FSCC.in.CtlSchdSt.SelectedScheduleValidationStatus"), None, None, None, None, None, None))
    case 262 => Some(PointOverride(false, Some(454), Some("FSCC.in.CtlSchdSt.SelectedScheduleStatus"), None, None, None, None, None, None))
    case 263 => Some(PointOverride(false, Some(455), Some("FSCC.in.CtlSchdSt.SelectedScheduleNumberOfPoints"), None, None, None, None, None, None))
    case 264 => Some(PointOverride(true, None, None, None, None, None, None, None, None))
    case 265 => Some(PointOverride(true, None, None, None, None, None, None, None, None))
    case 266 => Some(PointOverride(true, None, None, None, None, None, None, None, None))
    case 267 => Some(PointOverride(true, None, None, None, None, None, None, None, None))
    case 268 => Some(PointOverride(true, None, None, None, None, None, None, None, None))
    case 269 => Some(PointOverride(true, None, None, None, None, None, None, None, None))
    case 270 => Some(PointOverride(true, None, None, None, None, None, None, None, None))
    case 271 => Some(PointOverride(false, Some(456), Some("FSCH.in.SchVal"), Some(ArrayKind), Some("Schedule Points"), Some(100), Some(["FSCH.in.SchVal.val", "FSCH.in.SchVal.TimeOffset"]), None, None))
    case 272 => Some(PointOverride(true, None, None, None, None, None, None, None, None))
    case 273 => Some(PointOverride(true, None, None, None, None, None, None, None, None))
    case 274 => Some(PointOverride(true, None, None, None, None, None, None, None, None))
    case 275 => Some(PointOverride(true, None, None, None, None, None, None, None, None))
    case _ => None
  }

  /** Overrides for the AO worksheet, keyed by spreadsheet row. */
  function ExtraAORow(row: int): Option<PointOverride>
  {
    match row
    case 0 => Some(PointOverride(false, Some(404), None, None, None, None, None, None, None))
    case 2 => Some(PointOverride(false, Some(405), Some("DRCT.VArRef.1"), None, None, None, None, None, None))
    case 3 => Some(PointOverride(false, Some(406), Some("DOPM.WinTms.1"), None, None, None, None, None, None))
    case 7 => Some(PointOverride(false, None, Some("DOPM.RvrtTms.1"), None, None, None, None, None, None))
    case 11 => Some(PointOverride(false, None, Some("DRCT.RmpUpRte.1"), None, None, None, None, None, None))
    case 16 => Some(PointOverride(false, None, Some("DRCC.GridCfgEdt.1"), None, None, None, None, None, None))
    case 44 => Some(PointOverride(false, None, Some("DOPM.RvrtTms.2"), None, None, None, None, None, None))
    case 71 => Some(PointOverride(false, None, Some("DCHD.RevtTms.1"), None, None, None, None, None, None))
    case 75 => Some(PointOverride(false, None, Some("DCHD.ChaRmpDnRte.1"), None, None, None, None, None, None))
    case 86 => Some(PointOverride(false, None, Some("DOPM.RvrtTms.3"), None, None, None, None, None, None))
    case 88 => Some(PointOverride(false, None, Some("DOPM.RmpTms.1"), None, None, None, None, None, None))
    case 96 => Some(PointOverride(false, None, Some("DOPM.RmpTms.2"), None, None, None, None, None, None))
    case 100 => Some(PointOverride(false, None, Some("DRCT.WFolRat.1"), None, None, None, None, None, None))
    case 102 => Some(PointOverride(false, None, Some("DOPM10.RvrtTms.1"), None, None, None, None, None, None))
    case 103 => Some(PointOverride(false, None, Some("DOPM10.RmpTms.1"), None, None, None, None, None, None))
    case 104 => Some(PointOverride(false, None, Some("DOPM.RmpTms.3"), None, None, None, None, None, None))
    case 123 => Some(PointOverride(false, None, Some("DOPM7.RvrtTms.1"), None, None, None, None, None, None))
    case 124 => Some(PointOverride(false, None, Some("DOPM.RmpTms.4"), None, None, None, None, None, None))
    case 147 => Some(PointOverride(false, None, Some("DRCT.WMaxLimPct.1"), None, None, None, None, None, None))
    case 168 => Some(PointOverride(false, None, Some("DGSM2.1"), None, None, None, None, None, None))
    case 170 => Some(PointOverride(false, None, Some("RDGS1.DbVMin.1"), None, None, None, None, None, None))
    case 188 => Some(PointOverride(false, None, Some("DOPM1.RmpTms.1"), None, None, None, None, None, None))
    case 191 => Some(PointOverride(false, Some(188), None, Some(SelectorBlockKind), None, None, None, Some(188), Some(403)))
    case 192 => Some(PointOverride(false, None, Some("DGSMn.ModTyp.1"), None, None, None, None, None, None))
    case 193 => Some(PointOverride(false, None, Some("DGSMn.WinTms.1"), None, None, None, None, None, None))
    case 194 => Some(PointOverride(false, None, Some("DGSMn.RmpTms.1"), None, None, None, None, None, None))
    case 195 => Some(PointOverride(false, None, Some("DGSMn.RvrtTms.1"), None, None, None, None, None, None))
    case 196 => Some(PointOverride(false, None, Some("FMARn.PairArray. NumPts.1"), None, None, None, None, None, None))
    case 197 => Some(PointOverride(false, None, Some("FMARn.PairArray. MaxPts.1"), None, None, None, None, None, None))
    case 198 => Some(PointOverride(false, None, Some("FMARn.IndpUnits.1"), None, None, None, None, None, None))
    case 199 => Some(PointOverride(false, None, Some("FMARn.DeptRef.1"), None, None, None, None, None, None))
    case 200 => Some(PointOverride(false, None, Some("FMARn.RmpPT1Tms.1"), None, None, None, None, None, None))
    case 201 => Some(PointOverride(false, None, Some("FMARn.RmpDecDmm.1"), None, None, None, None, None, None))
    case 202 => Some(PointOverride(false, None, Some("FMARn.RmpIncTmm.1"), None, None, None, None, None, None))
    case 203 => Some(PointOverride(false, None, Some("FMARn.RmpRsUp.1"), None, None, None, None, None, None))
    case 204 => Some(PointOverride(false, None, Some("FMARn.DeptSnptRef.1"), None, None, None, None, None, None))
    case 205 => Some(PointOverride(false, None, Some("FMARn.DeptRefStr.1"), None, None, None, None, None, None))
    case 206 => Some(PointOverride(false, None, Some("FMAR.out.PairArray.CsvPts.1"), None, None, None, None, None, None))
    case 207 => Some(PointOverride(false, Some(204), Some("FMAR.out.PairArray.CsvPts"), Some(ArrayKind), Some("Curve Points"), Some(100), Some(["FMAR.out.PairArray.CsvPts.xVal", "FMAR.out.PairArray.CsvPts.yVal"]), None, None))
    case 208 => Some(PointOverride(true, None, None, None, None, None, None, None, None))
    case 209 => Some(PointOverride(true, None, None, None, None, None, None, None, None))
    case 210 => Some(PointOverride(true, None, None, None, None, None, None, None, None))
    case 211 => Some(PointOverride(true, None, None, None, None, None, None, None, None))
    case 212 => Some(PointOverride(true, None, None, None, None, None, None, None, None))
    case 213 => Some(PointOverride(true, None, None, None, None, None, None, None, None))
    case 214 => Some(PointOverride(false, Some(407), Some("FSCC.out.CtlSchdSt.EditSelector"), Some(SelectorBlockKind), None, None, None, Some(407), Some(615)))
    case 215 => Some(PointOverride(false, Some(408), Some("FSCC.out.Schd.SelectedScheduleIdentity"), None, None, None, None, None, None))
    case 216 => Some(PointOverride(false, Some(409), Some("FSCC.out.Schd.SelectedSchedulePriority"), None, None, None, None, None, None))
    case 217 => Some(PointOverride(false, Some(410), Some("FSCC.out.Schd.SelectedScheduleType"), None, None, None, None, None, None))
    case 218 => Some(PointOverride(false, Some(411), Some("FSCC.out.Schd.SelectedScheduleStartTimeLong1"), None, None, None, None, None, None))
    case 219 => Some(PointOverride(false, Some(412), Some("FSCC.out.Schd.SelectedScheduleStartTimeLong2"), None, None, None, None, None, None))
    case 220 => Some(PointOverride(false, Some(413), Some("FSCC.out.Schd.SelectedScheduleRepeatInterval"), None, None, None, None, None, None))
    case 221 => Some(PointOverride(false, Some(414), Some("FSCC.out.Schd.SelectedScheduleRepeatIntervalUnits"), None, None, None, None, None, None))
    case 222 => Some(PointOverride(false, Some(415), Some("FSCC.out.Schd.SelectedScheduleNumberOfPoints"), None, None, None, None, None, None))
    case 223 => Some(PointOverride(false, Some(416), Some("FSCH.out.SchVal"), Some(ArrayKind), Some("Schedule Points"), Some(100), Some(["FSCH.out.SchVal.TimeOffset", "FSCH.out.SchVal.val"]), None, None))
    case _ => None
  }

  /** Overrides for the BI worksheet, keyed by spreadsheet row. */
  function ExtraBIRow(row: int): Option<PointOverride>
  {
    match row
    case 0 => Some(PointOverride(false, Some(81), None, None, None, None, None, None, None))
    case 1 => Some(PointOverride(false, None, Some("CALH.GrAlm.1"), None, None, None, None, None, None))
    case 2 => Some(PointOverride(false, Some(82), Some("CALH.GrAlm.2"), None, None, None, None, None, None))
    case 3 => Some(PointOverride(false, Some(83), None, None, None, None, None, None, None))
    case 25 => Some(PointOverride(false, None, Some("CSWI. Pos.1"), None, None, None, None, None, None))
    case 40 => Some(PointOverride(false, None, Some("DGFL.Beh.1"), None, None, None, None, None, None))
    case 41 => Some(PointOverride(false, None, Some("DCHA.Beh.1"), None, None, None, None, None, None))
    case 56 => Some(PointOverride(false, None, Some("PTOV.Blk.1"), None, None, None, None, None, None))
    case 57 => Some(PointOverride(false, None, Some("PTOV.Str.general.1"), None, None, None, None, None, None))
    case 58 => Some(PointOverride(false, None, Some("PTOV.Op.general.1"), None, None, None, None, None, None))
    case 59 => Some(PointOverride(false, None, Some("PTUV.Blk.1"), None, None, None, None, None, None))
    case 60 => Some(PointOverride(false, None, Some("PTUV.Str.general.1"), None, None, None, None, None, None))
    case 61 => Some(PointOverride(false, None, Some("PTUV.Op.general.1"), None, None, None, None, None, None))
    case 76 => Some(PointOverride(false, None, Some("DFWS.Mod.1"), None, None, None, None, None, None))
    case 84 => Some(PointOverride(false, Some(84), Some("FSCH.SchdReuse.SelectedScheduleIsReady"), None, None, None, None, None, None))
    case 85 => Some(PointOverride(false, Some(85), Some("FSCH.SchdReuse.SelectedScheduleIsValidated"), None, None, None, None, None, None))
    case 86 => Some(PointOverride(false, Some(86), Some("FSCH.SchdReuse.SelectedScheduleRepeatWeeklySunday"), None, None, None, None, None, None))
    case 87 => Some(PointOverride(false, Some(87), Some("FSCH.SchdReuse.SelectedScheduleRepeatWeeklyMonday"), None, None, None, None, None, None))
    case 88 => Some(PointOverride(false, Some(88), Some("FSCH.SchdReuse.SelectedScheduleRepeatWeeklyTuesday"), None, None, None, None, None, None))
    case 89 => Some(PointOverride(false, Some(89), Some("FSCH.SchdReuse.SelectedScheduleRepeatWeeklyWednesday"), None, None, None, None, None, None))
    case 90 => Some(PointOverride(false, Some(90), Some("FSCH.SchdReuse.SelectedScheduleRepeatWeeklyThursday"), None, None, None, None, None, None))
    case 91 => Some(PointOverride(false, Some(91), Some("FSCH.SchdReuse.SelectedScheduleRepeatWeeklyFriday"), None, None, None, None, None, None))
    case 92 => Some(PointOverride(false, Some(92), Some("FSCH.SchdReuse.SelectedScheduleRepeatWeeklySaturday"), None, None, None, None, None, None))
    case 93 => Some(PointOverride(false, Some(93), Some("FSCH.SchdReuse.OneOrMoreSchedulesRunning"), None, None, None, None, None, None))
    case _ => None
  }

  /** Overrides for the BO worksheet, keyed by spreadsheet row. */
  function ExtraBORow(row: int): Option<PointOverride>
  {
    match row
    case 0 => Some(PointOverride(false, Some(32), None, None, None, None, None, None, None))
    case 2 => Some(PointOverride(false, Some(33), None, None, None, None, None, None, None))
    case 3 => Some(PointOverride(false, Some(34), Some("DRCC.DERStr.1"), None, None, None, None, None, None))
    case 7 => Some(PointOverride(false, None, Some("CSWI. Pos.2"), None, None, None, None, None, None))
    case 8 => Some(PointOverride(false, None, Some(".EnaCfgDet.1"), None, None, None, None, None, None))
    case 9 => Some(PointOverride(false, None, Some("DOPM_x000D_DEXC.OpModIsld_x000D_DrpV.1"), None, None, None, None, None, None))
    case 11 => Some(PointOverride(false, None, Some("DRCT.PFExt.1"), None, None, None, None, None, None))
    case 12 => Some(PointOverride(false, None, Some("DVRT.Mod.1"), None, None, None, None, None, None))
    case 14 => Some(PointOverride(false, None, Some("RDGS.Mod.1"), None, None, None, None, None, None))
    case 15 => Some(PointOverride(false, None, Some("DVWD.Mod.1"), None, None, None, None, None, None))
    case 16 => Some(PointOverride(false, None, Some("FWHZ.Mod.1"), None, None, None, None, None, None))
    case 17 => Some(PointOverride(false, None, Some("DAMG.Mod.1"), None, None, None, None, None, None))
    case 20 => Some(PointOverride(false, None, Some("DLFL.Mod.1"), None, None, None, None, None, None))
    case 21 => Some(PointOverride(false, None, Some("DGFL.Mod.1"), None, None, None, None, None, None))
    case 22 => Some(PointOverride(false, None, Some("DGFL.Mod.2"), None, None, None, None, None, None))
    case 23 => Some(PointOverride(false, None, Some("DCHA.Mod.1"), None, None, None, None, None, None))
    case 24 => Some(PointOverride(false, None, Some("DWSM.Mod.1"), None, None, None, None, None, None))
    case 27 => Some(PointOverride(false, None, Some("DFPF.Mod.1"), None, None, None, None, None, None))
    case 28 => Some(PointOverride(false, None, Some("DVVC.Mod.1"), None, None, None, None, None, None))
    case 29 => Some(PointOverride(false, None, Some("FPFW.Mod.1"), None, None, None, None, None, None))
    case 30 => Some(PointOverride(false, None, Some("DPFC.Mod.1"), None, None, None, None, None, None))
    case 31 => Some(PointOverride(false, None, Some("DPRG.Mod.1"), None, None, None, None, None, None))
    case 32 => Some(PointOverride(false, None, Some("RDGS.Mod.2"), None, None, None, None, None, None))
    case 35 => Some(PointOverride(false, Some(35), Some("FSCH.SchdReuse.SetSelectedScheduleReady"), None, None, None, None, None, None))
    case 36 => Some(PointOverride(false, Some(36), Some("FSCH.SchdReuse.SetSelectedScheduleRepeatWeeklySunday"), None, None, None, None, None, None))
    case 37 => Some(PointOverride(false, Some(37), Some("FSCH.SchdReuse.SetSelectedScheduleRepeatWeeklyMonday"), None, None, None, None, None, None))
    case 38 => Some(PointOverride(false, Some(38), Some("FSCH.SchdReuse.SetSelectedScheduleRepeatWeeklyTuesday"), None, None, None, None, None, None))
    case 39 => Some(PointOverride(false, Some(39), Some("FSCH.SchdReuse.SetSelectedScheduleRepeatWeeklyWednesday"), None, None, None, None, None, None))
    case 40 => Some(PointOverride(false, Some(40), Some("FSCH.SchdReuse.SetSelectedScheduleRepeatWeeklyThursday"), None, None, None, None, None, None))
    case 41 => Some(PointOverride(false, Some(41), Some("FSCH.SchdReuse.SetSelectedScheduleRepeatWeeklyFriday"), None, None, None, None, None, None))
    case 42 => Some(PointOverride(false, Some(42), Some("FSCH.SchdReuse.SetSelectedScheduleRepeatWeeklySaturday"), None, None, None, None, None, None))
    case _ => None
  }

  /** The title under which the function data cite the MESA-ESS document. */
  const DocumentTitle := "MESA-ESS spec"

  /** A function's "ref" text: the document's section and the table that lists the function's steps. */
  function Reference(section: string, table: string): string
  {
    DocumentTitle + " section " + section + " (Table " + table + ")"
  }

  /** Extra data per MESA-ESS function, keyed by function name. */
  function FunctionExtra(functionName: string): Option<FunctionData>
  {
    match functionName
    case "disconnect" => Some(FunctionData(Reference("6.2.2", "13"), None, map[13 := StepExtra(None, Some("publish"))]))
    case "reconnect" => Some(FunctionData(Reference("6.2.2", "14"), None, map[2 := StepExtra(Some("DCND.RmpTms.1"), None), 4 := StepExtra(Some("If switch, CSWI.Pos.1"), None), 5 := StepExtra(None, Some("publish"))]))
    case "cease_to_energize" => Some(FunctionData(Reference("6.2.3", "15"), None, map[2 := StepExtra(Some("DCTE.RmpTms.1"), None), 4 := StepExtra(None, Some("publish"))]))
    case "return_to_service" => Some(FunctionData(Reference("6.2.3", "16"), None, map[4 := StepExtra(None, Some("publish"))]))
    case "low_high_voltage_ride_through" => Some(FunctionData(Reference("6.3.1", "17"), Some("DVRT.Beh"), map[36 := StepExtra(None, Some("publish"))]))
    case "low_high_freq_ride_through" => Some(FunctionData(Reference("6.3.2", "18"), Some("DFRT.Beh"), map[8 := StepExtra(None, Some("publish"))]))
    case "dynamic_reactive_current" => Some(FunctionData(Reference("6.3.3.6", "20"), Some("RDGS.Beh"), map[13 := StepExtra(None, Some("publish"))]))
    case "dynamic_volt_watt" => Some(FunctionData(Reference("6.3.4", "21"), Some("DVWD.Beh"), map[10 := StepExtra(None, Some("publish"))]))
    case "frequency_watt_emergency" => Some(FunctionData(Reference("6.3.5", "22"), Some("FWHZ.Beh"), map[14 := StepExtra(None, Some("publish"))]))
    case "charge_discharge" => Some(FunctionData(Reference("6.4.1", "23"), Some("DCHA.Beh"), map[11 := StepExtra(None, Some("publish"))]))
    case "coordinated_charge_discharge" => Some(FunctionData(Reference("6.4.2", "24"), Some("DCBY.Beh"), map[18 := StepExtra(None, Some("publish"))]))
    case "active_power_limit" => Some(FunctionData(Reference("6.4.3", "25"), Some("DAMG.Beh"), map[9 := StepExtra(None, Some("publish"))]))
    case "peak_power_limiting" => Some(FunctionData(Reference("6.4.4", "26"), Some("DLFL.Beh"), map[11 := StepExtra(None, Some("publish"))]))
    case "load_following" => Some(FunctionData(Reference("6.4.5", "27"), Some("DGFL.Beh"), map[11 := StepExtra(None, Some("publish"))]))
    case "generation_following" => Some(FunctionData(Reference("6.4.6", "28"), Some("DGFL.Beh.1"), map[13 := StepExtra(None, Some("publish"))]))
    case "automatic_generation_control" => Some(FunctionData(Reference("6.4.7", "29"), Some("DCHA.Beh.1"), map[10 := StepExtra(None, Some("publish")), 12 := StepExtra(Some("DRCT.MaxRmpUpRte.1"), None), 13 := StepExtra(Some("DRCT.MaxRmpDnRte.1"), None)]))
    case "active_power_smoothing" => Some(FunctionData(Reference("6.4.8", "30"), Some("DWSM.Beh"), map[15 := StepExtra(None, Some("publish"))]))
    case "volt_watt" => Some(FunctionData(Reference("6.4.9", "31"), Some("DVWA_x000D_DVVM.Beh"), map[16 := StepExtra(None, Some("publish"))]))
    case "frequency_watt_curve" => Some(FunctionData(Reference("6.4.10.3", "32"), Some("DFWS.Beh"), map[3 := StepExtra(Some("DOPR.ECPNomHz.1"), None), 8 := StepExtra(None, Some("publish"))]))
    case "fixed_power_factor" => Some(FunctionData(Reference("6.5.1", "33"), Some("DFPF.Beh"), map[7 := StepExtra(None, Some("publish"))]))
    case "volt_var_control" => Some(FunctionData(Reference("6.5.2", "34"), Some("DVVC.Beh"), map[7 := StepExtra(None, Some("publish"))]))
    case "watt_var" => Some(FunctionData(Reference("6.5.3", "35"), Some("FPFW.Beh"), map[7 := StepExtra(None, Some("publish"))]))
    case "power_factor_limiting" => Some(FunctionData(Reference("6.5.4", "36"), Some("DPFC.Beh"), map[7 := StepExtra(Some("DPFC.PFRef.rangeC.1"), None), 9 := StepExtra(None, Some("publish"))]))
    case "schedule_creation" => Some(FunctionData(Reference("6.6", "37"), None, map[6 := StepExtra(None, Some("publish"))]))
    case "schedule_enable" => Some(FunctionData(Reference("6.6", "38"), None, map[5 := StepExtra(None, Some("publish")), 7 := StepExtra(Some("FSCHxx.SchdReuse1"), None), 8 := StepExtra(Some("FSCHxx.SchdReuse2"), None), 9 := StepExtra(Some("FSCHxx.SchdReuse3"), None), 10 := StepExtra(Some("FSCHxx.SchdReuse4"), None), 11 := StepExtra(Some("FSCHxx.SchdReuse5"), None), 12 := StepExtra(Some("FSCHxx.SchdReuse6"), None), 13 := StepExtra(Some("FSCHxx.SchdReuse7"), None)]))
    case "curve" => Some(FunctionData("Not documented explicitly in the MESA-ESS spec", None, map[13 := StepExtra(None, Some("publish"))]))
    case "Schedule" => Some(FunctionData("Not documented explicitly in the MESA-ESS spec", None, map[3 := StepExtra(None, Some("publish"))]))
    case _ => None
  }


  /** The overrides of a worksheet row, if the table has any. */
  function ExtraPointRow(dt: DataType, row: int): Option<PointOverride>
  {
    match dt
    case AI => ExtraAIRow(row)
    case AO => ExtraAORow(row)
    case BI => ExtraBIRow(row)
    case BO => ExtraBORow(row)
  }

  /** The overrides of a worksheet row; a row the table does not list has none. */
  function ExtraPointData(dt: DataType, row: int): (r: PointOverride)
    ensures ExtraPointRow(dt, row).None? ==> r == NoOverride
    ensures ExtraPointRow(dt, row).Some? ==> r == ExtraPointRow(dt, row).value
  {
    if ExtraPointRow(dt, row).Some? then ExtraPointRow(dt, row).value else NoOverride
  }

  /** One element of a function's extra data: "ref", "support_point" or "steps"; None when absent. */
  function ExtraDataForFunction(functionName: string, element: string): (r: Option<ExtraValue>)
    ensures FunctionExtra(functionName).None? ==> r.None?
    ensures element != "ref" && element != "support_point" && element != "steps" ==> r.None?
    ensures FunctionExtra(functionName).Some? && element == "ref" ==>
              r == Some(Text(FunctionExtra(functionName).value.reference))
    ensures FunctionExtra(functionName).Some? && element == "steps" ==>
              r == Some(StepTable(FunctionExtra(functionName).value.steps))
    ensures FunctionExtra(functionName).Some? && element == "support_point" ==>
              (r.Some? <==> FunctionExtra(functionName).value.supportPoint.Some?)
              && (r.Some? ==> r.value == Text(FunctionExtra(functionName).value.supportPoint.value))
  {
    match FunctionExtra(functionName)
    case None => None
    case Some(data) =>
      if element == "ref" then Some(Text(data.reference))
      else if element == "support_point" then (if data.supportPoint.Some? then Some(Text(data.supportPoint.value)) else None)
      else if element == "steps" then Some(StepTable(data.steps))
      else None
  }

  /**
   * One element of a function step's extra data: "name" or "action"; None when the function,
   * the step or the element is absent.
   */
  function ExtraDataForFunctionStep(functionName: string, stepNumber: int, element: string): (r: Option<string>)
  {
    var steps := ExtraDataForFunction(functionName, "steps");
    if steps.None? || !steps.value.StepTable? || steps.value.steps == map[] then None
    else if stepNumber !in steps.value.steps then None
    else
      var extra := steps.value.steps[stepNumber];
      if element == "name" then extra.name
      else if element == "action" then extra.action
      else None
  }

  /** A step's extra data is found exactly where the function's step table lists it. */
  lemma ExtraStepLookup(functionName: string, stepNumber: int, element: string)
    ensures var f := FunctionExtra(functionName);
            ExtraDataForFunctionStep(functionName, stepNumber, element).Some? <==>
              && f.Some? && stepNumber in f.value.steps
              && ((element == "name" && f.value.steps[stepNumber].name.Some?)
                  || (element == "action" && f.value.steps[stepNumber].action.Some?))
  {
  }

  /** Step 11 of charge/discharge (MESA-ESS section 6.4.1, Table 23) publishes the Function. */
  lemma ChargeDischargePublishes()
    ensures ExtraDataForFunctionStep("charge_discharge", 11, "action") == Some("publish")
    ensures ExtraDataForFunctionStep("charge_discharge", 11, "name") == None
    ensures ExtraDataForFunctionStep("charge_discharge", 10, "action") == None
    ensures ExtraDataForFunction("charge_discharge", "support_point") == Some(Text("DCHA.Beh"))
  {
    var steps := map[11 := StepExtra(None, Some("publish"))];
    assert FunctionExtra("charge_discharge") == Some(FunctionData(Reference("6.4.1", "23"), Some("DCHA.Beh"), steps));
    assert 11 in steps && 10 !in steps;
  }

  /** A selector block override starts at the block's own index and ends no lower. */
  predicate SelectorBlockWellFormed(o: PointOverride)
  {
    o.kind == Some(SelectorBlockKind) ==>
      && o.index.Some? && o.selectorStart == o.index
      && o.selectorEnd.Some? && o.selectorStart.value <= o.selectorEnd.value
  }

  /** An array override has a name, its columns, and room for MaxArrayPoints rows. */
  predicate ArrayWellFormed(o: PointOverride)
  {
    o.kind == Some(ArrayKind) ==>
      && o.index.Some? && o.name.Some?
      && o.timesRepeated == Some(MaxArrayPoints)
      && o.columns.Some? && |o.columns.value| == 2
  }

  lemma AISelectorsWellFormed(row: int)
    ensures ExtraPointData(AI, row).kind == Some(SelectorBlockKind) ==> SelectorBlockWellFormed(ExtraPointData(AI, row))
  {
  }

  lemma AIArraysWellFormed(row: int)
    ensures ExtraPointData(AI, row).kind == Some(ArrayKind) ==> ArrayWellFormed(ExtraPointData(AI, row))
  {
  }

  lemma AOSelectorsWellFormed(row: int)
    ensures ExtraPointData(AO, row).kind == Some(SelectorBlockKind) ==> SelectorBlockWellFormed(ExtraPointData(AO, row))
  {
  }

  lemma AOArraysWellFormed(row: int)
    ensures ExtraPointData(AO, row).kind == Some(ArrayKind) ==> ArrayWellFormed(ExtraPointData(AO, row))
  {
  }

  lemma BISelectorsWellFormed(row: int)
    ensures ExtraPointData(BI, row).kind == Some(SelectorBlockKind) ==> SelectorBlockWellFormed(ExtraPointData(BI, row))
  {
  }

  lemma BIArraysWellFormed(row: int)
    ensures ExtraPointData(BI, row).kind == Some(ArrayKind) ==> ArrayWellFormed(ExtraPointData(BI, row))
  {
  }

  lemma BOSelectorsWellFormed(row: int)
    ensures ExtraPointData(BO, row).kind == Some(SelectorBlockKind) ==> SelectorBlockWellFormed(ExtraPointData(BO, row))
  {
  }

  lemma BOArraysWellFormed(row: int)
    ensures ExtraPointData(BO, row).kind == Some(ArrayKind) ==> ArrayWellFormed(ExtraPointData(BO, row))
  {
  }

  /** Every selector block and array override of every worksheet is well formed. */
  lemma {:induction false} OverridesWellFormed(dt: DataType, row: int)
    ensures SelectorBlockWellFormed(ExtraPointData(dt, row))
    ensures ArrayWellFormed(ExtraPointData(dt, row))
  {
    match dt
    case AI => AISelectorsWellFormed(row); AIArraysWellFormed(row);
    case AO => AOSelectorsWellFormed(row); AOArraysWellFormed(row);
    case BI => BISelectorsWellFormed(row); BIArraysWellFormed(row);
    case BO => BOSelectorsWellFormed(row); BOArraysWellFormed(row);
  }
}
