# MESA-ESS reassembly engine and DNP3 point catalog

This project models the core of the VOLTTRON DNP3 outstation agent and of its offline
definition tools:

- **The MESA-ESS reassembly engine** (`mesa/agent.py`). A DNP3 master writes points one at
  a time, by raw index. The outstation regroups these writes into named MESA-ESS Functions.
  It enforces the step-ordering rules:
  - duplicate steps are rejected;
  - no Mandatory step with a smaller number may be missing;
  - a step may go backwards only after the Function is complete;
  - another Function may start only after the current one is complete.

  It also tracks two composite addressing shapes:
  - Arrays, where an index range decodes to (row, column);
  - Selector Blocks, an inclusive index range keyed by the written selector value, with save-on-write snapshots.

  The agent is the class `Mesa.MesaAgent`. `Function`, `PointArray` and `SelectorBlock` are
  classes in `Assembly`. The function definitions and their step-name index are in `FunctionDefs`.
  The overlap report of the stand-alone definition validator is in `DefinitionChecks`.
- **The point catalog** (`base_dnp3_agent.py`). This covers:
  - per-record validation with its defaults (`Points.ValidatePoint`);
  - the group to point-type table of IEEE Std 1815 (DNP3) Annex A;
  - the catalog build, which aborts on a duplicate (point type, index) and expands array columns (`Catalog.PointDefinitions`);
  - the name index, which rejects duplicate names;
  - `PointValue` row/column arithmetic;
  - the latest-value cache keyed by (point type, index), with the status result of `process_point_value` (`BaseAgent`).
- **The offline definition converter** (`data/data_converter.py` and the tables in
  `data/data_converter_constants.py`). This covers:
  - index allocation;
  - point and step creation from spreadsheet rows;
  - the hand-made points of added functions, with their selector-block bounds;
  - the two whole-catalog validators.

  The converter is the class `DataConverter.Converter`. Its tables and lookup helpers are in `ConverterConstants`.
  The Python string operations it relies on (`rstrip`, `int()`, `split`) are in `PyText`.
- **The function-test validator** (`tests/util/test_util.py`). A test payload must contain
  every Mandatory step of its function and may only name steps of that function (`FunctionTest`).

The code changes state in place where the source does:
- the catalog, the caches, the Function under assembly, the point arrays, the selector blocks and the converter's lists are Dafny classes whose methods are proved against specification functions (`LoadRun`, `ExpandUpTo`, `NameMap`, `MissingNumbers`, `MessagePoints`, `AddedRun`, `HighWater`, …);
- the pure parts (validation, tables, the test validator, the overlap report) are functions with lemmas.

I/O is replaced by values:
- file contents arrive as sequences of records;
- echoes and publishes to the master and the message bus are returned as `Mesa.Instruction` values;
- the YAML-loaded function definition of a test is a parameter.

## Model

| member | source | states |
|---|---|---|
| Points.PointTypeForGroup | services/core/DNP3Agent/base_dnp3_agent.py:784-790 | groups 1-2 are Binary Input, 10-13 Binary Output, 30-34 Analog Input, 40-43 Analog Output (each an iff), and None exactly for a group outside the POINT_TYPES_BY_GROUP table |
| Points.EventDefaults | services/core/DNP3Agent/base_dnp3_agent.py:64-69 | defaults exist exactly for the four Analog/Binary Input/Output types, and each default event group belongs to the point type it is the default for |
| Points.ValidatePoint | services/core/DNP3Agent/base_dnp3_agent.py:610-682 | a record is accepted iff it is admissible: a known `type`, group, variation and index present, event group/variation present or defaulted by point type, array fields exactly on arrays, selector fields exactly on selector blocks with start <= end. An unknown type gives InvalidType. An accepted definition carries every field with its documented default (event class 2, scaling 1, save_on_write false) |
| Points.ValidatedEventGroup | services/core/DNP3Agent/base_dnp3_agent.py:644-654 | a defaulted event group maps back to the point's own point type |
| Points.ArrayRange | services/core/DNP3Agent/base_dnp3_agent.py:776-782 | an index lies in `[index, array_last_index]` iff it is at or past the head and its row `(i - index) // cols` is below `array_times_repeated` |
| Points.PointValue.UnwrappedValue | services/core/DNP3Agent/base_dnp3_agent.py:838-844 | the unwrapped value is the written number when there is one, and otherwise a flag that is on exactly when the control code is LATCH_ON |
| Points.ArrayAddressRoundTrip | services/core/DNP3Agent/base_dnp3_agent.py:830-836 | the index `head + size*row + col` with `0 <= col < size` decodes to `array_element == row` and `array_points_index == col` |
| Points.ArrayAddressCovers | services/core/DNP3Agent/base_dnp3_agent.py:830-836 | every write decodes to a column in `[0, size)`, and row and column recompose the written index |
| Catalog.PointDefinitions.constructor | services/core/DNP3Agent/base_dnp3_agent.py:462-471 | a fresh catalog is empty, well keyed, and has no name index |
| Catalog.PointDefinitions.LoadPoints | services/core/DNP3Agent/base_dnp3_agent.py:473-518 | (corrected) the loop leaves exactly the catalog and error of the specification fold `LoadRun` over the records, and keeps every entry filed under its own type and index |
| Catalog.PointDefinitions.LoadElement | services/core/DNP3Agent/base_dnp3_agent.py:502-515 | (corrected) one record's step is the specification step `LoadStep`: validate, create the point type's table when missing, expand array columns, then file the point unless its (type, index) is taken |
| Catalog.PointDefinitions.ExpandArrayPoints | services/core/DNP3Agent/base_dnp3_agent.py:520-540 | the column loop equals the specification `ExpandUpTo` over all columns |
| Catalog.LoadStepGrows | services/core/DNP3Agent/base_dnp3_agent.py:502-515 | a load step never drops or changes an existing entry; when it succeeds, the record validated, its (type, index) was free, and it is now filed there |
| Catalog.LoadRunStops | services/core/DNP3Agent/base_dnp3_agent.py:510-517 | once a record fails, the whole load's result is the failure at that record: no data is loaded past it |
| Catalog.LoadRunWellKeyed | services/core/DNP3Agent/base_dnp3_agent.py:506-515 | every loaded point is filed under its own point type and index |
| Catalog.LoadRunFilesEveryRecord | services/core/DNP3Agent/base_dnp3_agent.py:502-515 | a successful load validated every record, filed each at its (type, index), and no two records share a (type, index) |
| Catalog.AddDefinitionGrows | services/core/DNP3Agent/base_dnp3_agent.py:509-515 | filing fails exactly when the (type, index) is already taken, and otherwise files the definition there and keeps all other entries |
| Catalog.ColumnDefinition | services/core/DNP3Agent/base_dnp3_agent.py:524-532 | column `k` of an array is a plain point named by the k-th column, at head index + k, with the head's group and variation |
| Catalog.ExpandUpToCovers | services/core/DNP3Agent/base_dnp3_agent.py:522-540 | after expansion, every column from 1 on is filed at head index + offset; a pre-existing point there is kept, not replaced (a duplicate column is skipped, not an error) |
| Catalog.ExpandUpToKeeps | services/core/DNP3Agent/base_dnp3_agent.py:534-540 | expansion never changes an existing entry |
| Catalog.ExpandUpToLeaves | services/core/DNP3Agent/base_dnp3_agent.py:522-540 | expansion adds nothing beyond the array's own column indexes |
| Catalog.ExpandUpToStops | services/core/DNP3Agent/base_dnp3_agent.py:531-533 | once a column fails, later columns do not change the result |
| Catalog.ArrayFirstOfItsTypeFails | services/core/DNP3Agent/base_dnp3_agent.py:504-508 | as written, an array of two or more columns that is the first point of its type fails, because its type table does not exist yet |
| Catalog.CurveFirstFailsAsWritten | services/core/DNP3Agent/base_dnp3_agent.py:504-508 | concrete instance: a catalog starting with a two-column AO array fails to load as written |
| Catalog.CurveFirstLoads | services/core/DNP3Agent/base_dnp3_agent.py:504-540 | with the type table created first, the same catalog loads both the head and its second column |
| Catalog.NameMap | services/core/DNP3Agent/base_dnp3_agent.py:575-583 | over uniquely named points, the name map holds every point under its own name and nothing else |
| Catalog.NameIndexOf | services/core/DNP3Agent/base_dnp3_agent.py:575-583 | the nested loop reports no duplicate iff all names in the catalog are distinct, then builds exactly `NameMap`; a reported duplicate is a name carried by two different points |
| Catalog.IndexTable | services/core/DNP3Agent/base_dnp3_agent.py:578-582 | the inner loop over one type's points extends the partial name index or reports a name carried by two points |
| Catalog.IndexOfIsNameMap | services/core/DNP3Agent/base_dnp3_agent.py:575-583 | a complete index without duplicates is the name map |
| Catalog.PointDefinitions.PointsByName | services/core/DNP3Agent/base_dnp3_agent.py:575-583 | an index already built is returned unchanged; otherwise it succeeds iff names are unique and is then `NameMap` of all points; a failure names a duplicated name |
| Catalog.PointDefinitions.PointNamed | services/core/DNP3Agent/base_dnp3_agent.py:585-587 | the lookup fails only on a duplicate name while building; otherwise it returns the point of that name, or None exactly when no point has that name |
| Catalog.PointDefinitions.GetPointNamed | services/core/DNP3Agent/base_dnp3_agent.py:589-594 | like PointNamed, but an absent name is the error NoPointNamed; building an index over duplicate names fails with DuplicateName; otherwise the lookup succeeds exactly when the name is indexed, and a found point is the indexed one carrying the asked name |
| Catalog.PointDefinitions.ForPointTypeAndIndex | services/core/DNP3Agent/base_dnp3_agent.py:549-557 | returns a point iff one is filed at (type, index), and that point has this type and index |
| BaseAgent.CommandPointType | services/core/DNP3Agent/base_dnp3_agent.py:401-402 | a control relay output block resolves to Binary Output, and an analog command resolves to Analog Output |
| BaseAgent.CommandPointValue | services/core/DNP3Agent/base_dnp3_agent.py:401-414 | the point value has the command's definition, index and command type; a CROB carries its function code and unwraps to LATCH_ON; an analog command carries its value |
| BaseAgent.BaseDnp3Agent.PointValueForCommand | services/core/DNP3Agent/base_dnp3_agent.py:391-414 | succeeds iff the catalog has a point of the command's type at the index; otherwise the error names that type and index |
| BaseAgent.CurrentValues.Get | services/core/DNP3Agent/base_dnp3_agent.py:327-334 | returns the cached value for (type, index), or None when absent |
| BaseAgent.CurrentValues.Add | services/core/DNP3Agent/base_dnp3_agent.py:416-421 | the value is now cached at (its type, its index), and every other entry is unchanged |
| BaseAgent.CurrentValues.Discard | services/core/DNP3Agent/base_dnp3_agent.py:429-437 | the entry at (type, index) is gone, and every other entry is unchanged |
| BaseAgent.BaseDnp3Agent.ProcessPointValue | services/core/DNP3Agent/base_dnp3_agent.py:358-389 | an unresolved command gives DOWNSTREAM_FAIL and leaves the cache alone; a Select succeeds without caching; an Operate succeeds, publishes the unwrapped value under the point's name and caches only that entry |
| FunctionDefs.FunctionCodesOf | services/core/DNP3Agent/mesa/agent.py:629-632 | the list is accepted iff every code is direct_operate, select or operate; an error names an offending code |
| FunctionDefs.ValidateStep | services/core/DNP3Agent/mesa/agent.py:602-632 | a step is accepted iff it has a number and a name, its optional flag is absent (defaulting to O) or one of O/M/C, and its fcodes are absent or a list of valid codes. An accepted step carries exactly the validated function codes, in order. The errors come in the source's order: missing number, missing name, invalid flag, fcodes not a list |
| FunctionDefs.ValidateSteps | services/core/DNP3Agent/mesa/agent.py:582 | all steps validate in order, or the error is that of the first step that does not |
| FunctionDefs.BuildFunction | services/core/DNP3Agent/mesa/agent.py:572-589 | a function definition is built iff id, name and steps are present and every step validates, with the record's name, id, support point and validated steps |
| FunctionDefs.FunctionDefinitions.LoadFunctions | services/core/DNP3Agent/mesa/agent.py:526-539 | the functions and the error after the load are exactly `Loaded` of the functions before: records in order, each built record filed under its name, the first failing record's build error ending the load; the step index is either kept or cleared |
| FunctionDefs.Loaded | services/core/DNP3Agent/mesa/agent.py:526-539 | a load only adds names, keeps every function filed under its own name, and an error it reports is the build error of some record |
| FunctionDefs.LoadedAllBuild | services/core/DNP3Agent/mesa/agent.py:532-535 | a load reports no error exactly when every record builds |
| FunctionDefs.LoadedStops | services/core/DNP3Agent/mesa/agent.py:532-538 | the first record that does not build decides the load: its error, with the functions the earlier records leave |
| FunctionDefs.LoadedKeys | services/core/DNP3Agent/mesa/agent.py:532-535 | after a load without error, the names are exactly the old ones and the names of the built records |
| FunctionDefs.LoadedLastWins | services/core/DNP3Agent/mesa/agent.py:541-542 | after a load without error, each name holds the function built from the last record of that name, as the dictionary assignment leaves it |
| FunctionDefs.LoadedUntouched | services/core/DNP3Agent/mesa/agent.py:541-542 | a load without error keeps every function that no record names |
| FunctionDefs.FunctionDefinitions.AddFunction | services/core/DNP3Agent/mesa/agent.py:541-545 | (corrected) the function is stored under its name and the step-name index is invalidated |
| FunctionDefs.StaleIndexAfterAdd | services/core/DNP3Agent/mesa/agent.py:541-556 | as written, adding a function whose step name is new leaves an index that no longer matches the functions and misses that name |
| FunctionDefs.FunctionDefinitions.StepDefinitionsByName | services/core/DNP3Agent/mesa/agent.py:547-556 | the nested loop builds an index that lists, for each name, exactly the steps of all functions carrying that name; a built index is returned unchanged |
| FunctionDefs.FunctionDefinitions.IndexSteps | services/core/DNP3Agent/mesa/agent.py:549-555 | the inner loop adds exactly one function's steps to the partial index |
| FunctionDefs.IndexCount | services/core/DNP3Agent/mesa/agent.py:547-556 | a name is in the index iff some step has that name, and its list is as long as the set of such steps |
| FunctionDefs.FunctionDefinitions.StepDefinitionForPoint | services/core/DNP3Agent/mesa/agent.py:503-511 | succeeds iff exactly one step of all functions has the point's name, and returns that step; no step gives NoStepNamed, several give SeveralStepsNamed |
| FunctionDefs.FunctionDefinitions.FunctionForSupportPoint | services/core/DNP3Agent/mesa/agent.py:516-519 | returns a function whose support point is the name, and None exactly when no function has it |
| FunctionDefs.FunctionDefinitions.IsSupported | services/core/DNP3Agent/mesa/agent.py:464-470 | a function is supported unless its written support value is falsy (false or 0) |
| FunctionDefs.FunctionDefinitions.SetSupported | services/core/DNP3Agent/mesa/agent.py:433-437 | the function's supported value becomes the written value, so supported is that value's truthiness |
| Assembly.MissingNumbers | services/core/DNP3Agent/mesa/agent.py:730-736 | the result lists exactly the numbers of Mandatory steps not received |
| Assembly.NoneMissingIff | services/core/DNP3Agent/mesa/agent.py:730-736 | nothing is missing iff every Mandatory step number has been received |
| Assembly.CompletenessAgrees | services/core/DNP3Agent/mesa/agent.py:675-689 | when step numbers and names correspond one to one, the name-based `is_complete` agrees with "no Mandatory number missing" |
| Assembly.CompletenessDiverges | services/core/DNP3Agent/mesa/agent.py:675-689 | without that correspondence the two checks disagree: two Mandatory steps sharing a number are "none missing" by number but incomplete by name |
| Assembly.FirstMissingBelow | services/core/DNP3Agent/mesa/agent.py:724-728 | reports a missing Mandatory number below the new step's number, and None exactly when there is none |
| Assembly.MissingMandatoryBelowIs | services/core/DNP3Agent/mesa/agent.py:724-728 | scanning the definition for a missing Mandatory step below the new number finds what `first missing number below` of the missing list finds |
| Assembly.AddedStep | services/core/DNP3Agent/mesa/agent.py:691-722 | on success the added or updated Step is the last of the new steps; a refused step leaves the steps unchanged, or empty when a restart is refused |
| Assembly.MissingAfterPrefix | services/core/DNP3Agent/mesa/agent.py:724-736 | after steps received in definition order, every missing Mandatory number belongs to a later step of the definition |
| Assembly.InOrderAccepted | services/core/DNP3Agent/mesa/agent.py:691-722 | steps sent in definition order with rising numbers are each accepted and appended, whether or not the Function is complete |
| Assembly.SkipMandatoryRejected | services/core/DNP3Agent/mesa/agent.py:724-728 | skipping a Mandatory step is refused as MissingMandatory and leaves the steps unchanged |
| Assembly.Function.constructor | services/core/DNP3Agent/mesa/agent.py:659-667 | a new Function has its definition, no steps and is not complete |
| Assembly.Function.CheckComplete | services/core/DNP3Agent/mesa/agent.py:675-689 | `is_complete`'s loop answers true iff a Step was received for every Mandatory step name of the definition |
| Assembly.Function.AddPointValue | services/core/DNP3Agent/mesa/agent.py:691-722 | the returned Step and the new steps are exactly `AddedStep` of the old steps: the first step is appended; an equal number replaces the last Step's value by the current array for an array point, and is DuplicateStep otherwise; a smaller number is OutOfOrder while incomplete, and after completion restarts the Function with just the new Step (or MissingMandatory); a larger number is MissingMandatory when a smaller Mandatory number is missing, and otherwise appends exactly one Step. `complete` always means no Mandatory number is missing |
| Assembly.ReplaceLastKeepsNumbers | services/core/DNP3Agent/mesa/agent.py:698-705 | replacing the last step's value keeps the received numbers, so completeness is unchanged |
| Assembly.AppendShrinksMissing | services/core/DNP3Agent/mesa/agent.py:720-721 | receiving more steps never makes a complete Function incomplete |
| Assembly.PointArray.constructor | services/core/DNP3Agent/mesa/agent.py:742-761 | a new array has its head definition and no cells |
| Assembly.PointArray.ContainsIndex | services/core/DNP3Agent/mesa/agent.py:782-784 | an index is in the array iff it lies in `[head.index, array_last_index]` |
| Assembly.PointArray.AddPointValue | services/core/DNP3Agent/mesa/agent.py:786-796 | the value lands in cell `[(i - head)//cols][(i - head)%cols]`, and every other cell is unchanged |
| Assembly.PointArray.AsJson | services/core/DNP3Agent/mesa/agent.py:765-780 | (corrected) one JSON row per received row, as `ArrayJson` |
| Assembly.RowJsonLabels | services/core/DNP3Agent/mesa/agent.py:778-779 | in a row, column name `columns[c]` holds cell c's value, or None when the cell is absent |
| Assembly.Ascending | services/core/DNP3Agent/mesa/agent.py:776 | the row keys in strictly ascending order, all of them and nothing else |
| Assembly.ArrayJsonCells | services/core/DNP3Agent/mesa/agent.py:765-780 | (corrected) row p of the JSON is the p-th smallest row, and its entry for column name `columns[c]` is cell c of that row |
| Assembly.ArrayJsonMislabels | services/core/DNP3Agent/mesa/agent.py:775-779 | as written, with columns `[y, x]` a value written to column y is published under x, and y reads None; the corrected form publishes it under y |
| Assembly.SelectorBlock.constructor | services/core/DNP3Agent/mesa/agent.py:802-806 | a new block has its selector value, bounds and no points |
| Assembly.SelectorBlock.ContainsIndex | services/core/DNP3Agent/mesa/agent.py:811-813 | an index is in the block iff `start <= index <= end` |
| Assembly.SelectorBlock.AddPointValue | services/core/DNP3Agent/mesa/agent.py:815-819 | the point is appended to the block's points |
| Assembly.SelectorBlock.Copy | services/core/DNP3Agent/mesa/agent.py:307-311 | a fresh block with the same key, bounds and a copy of the points list |
| Mesa.MesaAgent.constructor | services/core/DNP3Agent/mesa/agent.py:114-118 | the engine starts with no current function, array or selector block, no saved blocks, and an empty cache |
| Mesa.MesaAgent.LookupIndex | services/core/DNP3Agent/mesa/agent.py:338-349 | the lookup index is the current array's head index when that array contains the index, and the index itself otherwise |
| Mesa.MesaAgent.PointValueForCommand | services/core/DNP3Agent/mesa/agent.py:325-360 | succeeds iff the catalog has a point of the command's type at the lookup index; the value keeps the written index; otherwise the error names type and index |
| Mesa.MesaAgent.SetCurrentFunction | services/core/DNP3Agent/mesa/agent.py:464-470 | a Function is installed iff its definition is supported; otherwise UnsupportedFunction and the current function is unchanged |
| Mesa.MesaAgent.CurrentFunctionFor | services/core/DNP3Agent/mesa/agent.py:401-412 | the same definition returns the current Function unchanged; a different definition is Mismatch while the current one is incomplete; otherwise a fresh empty Function when supported, or UnsupportedFunction with the current function cleared |
| Mesa.MesaAgent.UpdateSelectorBlock | services/core/DNP3Agent/mesa/agent.py:370-377 | the block afterwards is `SelectorBlockAfter` the old one: a selector-block point starts a fresh block keyed by its value, holding the point iff it lies in the block; any other point keeps the current block and is appended to it iff within its bounds; saved blocks never change |
| Mesa.MesaAgent.UpdateArray | services/core/DNP3Agent/mesa/agent.py:379-393 | writing a head starts a fresh array; another array point needs a current array (NoCurrentArray) and must lie in it (OutsideArray); on success exactly its cell is set, and after a head all other cells are empty |
| Mesa.MesaAgent.UpdateFunctionForPointValue | services/core/DNP3Agent/mesa/agent.py:362-399 | the result and the current Function's steps are exactly `Joined` of the state before: a point naming no step or several steps is an error that changes no state; otherwise the point's step joins its Function, whose last Step is the result; whenever the point reaches its Function, the selector block is `SelectorBlockAfter` the old one |
| Mesa.MesaAgent.JoinFunction | services/core/DNP3Agent/mesa/agent.py:368-399 | for the step `x` the point names, the result and the current Function's steps are exactly `JoinedAt`: a Mismatch or unsupported Function is refused with the selector block untouched; otherwise the Function of `x`'s definition is current and holds `JoinedAt`'s steps, and the selector block is `SelectorBlockAfter` the old one |
| Mesa.MesaAgent.AddToFunction | services/core/DNP3Agent/mesa/agent.py:370-395 | the selector block is always `SelectorBlockAfter` the old one: a point inside the current block's range is appended to it, and a selector-block point starts a fresh block; an array point that does not fit the current array is refused and the Function is unchanged; otherwise the result and the Function's steps are exactly `AddedStep`, and on success the array cell holds the point |
| Mesa.ApplyPointUpdate | services/core/DNP3Agent/mesa/agent.py:439-458 | an update is emitted iff the point is an Analog or Binary Input, and is UnsupportedPointType otherwise |
| Mesa.ColumnOf | services/core/DNP3Agent/mesa/agent.py:424 | a column name maps to its last position in the column list, and None when absent |
| Mesa.CellUpdate | services/core/DNP3Agent/mesa/agent.py:424-429 | a cell gives an update iff its name labels a column and the point accepts updates; the update is at `head + cols*row + col` with the cell's value; an unknown name is NoSuchColumn |
| Mesa.RowUpdates | services/core/DNP3Agent/mesa/agent.py:425-429 | the updates of a row are, in order, `CellUpdate` of its cells up to the first error; with no error there is exactly one per cell, at `head + cols*row + col` for the cell's named column |
| Mesa.ArrayUpdates | services/core/DNP3Agent/mesa/agent.py:421-429 | every update of an array value is at `head + cols*row + col` for a row of the value and a column of the array |
| Mesa.EchoedCellDecodes | services/core/DNP3Agent/mesa/agent.py:421-429 | an echoed array index decodes, by the PointValue arithmetic, to a row of the value and a column of the array |
| Mesa.RowUpdatesStops | services/core/DNP3Agent/mesa/agent.py:425-429 | an unknown column name stops the row: later cells send nothing |
| Mesa.ArrayUpdatesStops | services/core/DNP3Agent/mesa/agent.py:425-429 | an error in one row stops the whole array update |
| Mesa.ArrayUpdatesComplete | services/core/DNP3Agent/mesa/agent.py:421-429 | an array update without error accepted every row whole, and its updates are the rows' own updates, concatenated in row order |
| Mesa.MesaAgent.ArrayInputUpdates | services/core/DNP3Agent/mesa/agent.py:421-429 | the loop over rows computes exactly `ArrayUpdates` |
| Mesa.MesaAgent.RowInputUpdates | services/core/DNP3Agent/mesa/agent.py:425-429 | the loop over a row's cells computes exactly `RowUpdates` |
| Mesa.MesaAgent.UpdateInputPoint | services/core/DNP3Agent/mesa/agent.py:414-437 | a scalar is one update at the point's index, or an unsupported-type error. A support point's function gets the value as its supported flag, and `supported` is unchanged otherwise. A list of rows is the array updates above, and NotAnArray for a non-array point |
| Mesa.EchoAll | services/core/DNP3Agent/mesa/agent.py:453-456 | one echo instruction per update, in order |
| Mesa.StepJson | services/core/DNP3Agent/mesa/agent.py:653-654 | an array step publishes its array's rows and a scalar step its unwrapped value; a mismatch is an error |
| Mesa.MessagePoints | services/core/DNP3Agent/mesa/agent.py:477-478 | the published points have exactly the names of the received steps |
| Mesa.MessagePointsNext | services/core/DNP3Agent/mesa/agent.py:477-478 | each step adds its JSON under its name, or fails when its name is not a catalog point |
| Mesa.MessagePointsStops | services/core/DNP3Agent/mesa/agent.py:477-478 | the first failing step decides the message's error |
| Mesa.MessagePointsLastWins | services/core/DNP3Agent/mesa/agent.py:477-478 | when a name repeats, the published value is that of its last step |
| Mesa.MesaAgent.FunctionMessageFor | services/core/DNP3Agent/mesa/agent.py:472-483 | the message names the Function, carries `MessagePoints` of its steps, and has an expected response iff the step's action is publish_and_respond |
| Mesa.MesaAgent.StepPoints | services/core/DNP3Agent/mesa/agent.py:477-478 | the loop computes exactly `MessagePoints` over the Function's steps |
| Mesa.MesaAgent.AddStepPoint | services/core/DNP3Agent/mesa/agent.py:477-478 | one loop iteration extends the message points by one step |
| Mesa.MesaAgent.SaveSelectorBlock | services/core/DNP3Agent/mesa/agent.py:305-312 | the snapshot is a fresh block, distinct from the live one, stored under the block's key with the same bounds and points; other saved blocks are kept |
| Mesa.MesaAgent.EchoStep | services/core/DNP3Agent/mesa/agent.py:314-317 | with a usable name index: no response point is NoResponsePoint, an unknown response point is NoPointNamed, and otherwise the echo is exactly `ApplyPointUpdate` of the response point at its own index: one echo of the written value when the point takes input, else that update's error; duplicate names fail as a name lookup error. When some function has the response point as its support point, `supported` becomes the old map with that function set to the value; otherwise `supported` is unchanged |
| Mesa.MesaAgent.StepActions | services/core/DNP3Agent/mesa/agent.py:314-320 | no echo or publish action emits nothing and succeeds. An echo action emits the echo first. A publish action ends with the Function's message. `supported` changes only through an echo's support point |
| Mesa.JoinedAt | services/core/DNP3Agent/mesa/agent.py:368-399 | joining a step's point: an incompatible or unsupported Function refuses it with no steps; on success the Step is the last of the Function's new steps |
| Mesa.Joined | services/core/DNP3Agent/mesa/agent.py:362-399 | a point joins only when exactly one step is named by it, and then its Step is the last of the Function's new steps |
| Mesa.MesaAgent.RunStep | services/core/DNP3Agent/mesa/agent.py:302-320 | installs the Function, snapshots a save-on-write selector block, and runs the step's actions. Any failure clears the current Function. A step of a supported Function with no echo or publish action always succeeds, and the whole run meets `OperateDone` |
| Mesa.MesaAgent.ProcessOperate | services/core/DNP3Agent/mesa/agent.py:300-323 | the run meets `OperateDone`: if `Joined` fails, the Operate fails with that error and emits nothing. On success, the current Function is the one of the point's unique step, holds exactly `Joined`'s steps and is supported. A step with no echo or publish action in a supported Function always succeeds. On any error the current Function is None. Saved blocks never change |
| Mesa.MesaAgent.ProcessValue | services/core/DNP3Agent/mesa/agent.py:288-323 | the value is cached first, even for Select, changing only its entry. A Select changes nothing else and emits nothing. An Operate meets `OperateDone`, with the error of `Joined` when that fails |
| Mesa.MesaAgent.DiscardCachedPointValue | services/core/DNP3Agent/base_dnp3_agent.py:429-437 | the entry at (type, index) is gone; every other cache entry, the definitions, the support flags, the Function in progress and the saved blocks are unchanged |
| Mesa.MesaAgent.ProcessOrDiscard | services/core/DNP3Agent/base_dnp3_agent.py:372-377 | success leaves the value cached. A failure discards exactly its cache entry and clears the current Function. A Select succeeds silently, and an Operate meets `OperateDone` |
| Mesa.MesaAgent.ProcessPointValue | services/core/DNP3Agent/base_dnp3_agent.py:358-380 | an unresolved command is DOWNSTREAM_FAIL and changes nothing. Otherwise the status is SUCCESS iff processing succeeded, and an Operate meets `OperateDone`: it succeeds only with its step joined to a supported Function, and always succeeds for a silent step that joins. Success leaves the value cached. A failure after resolution discards exactly that cache entry and clears the current Function. A Select succeeds silently |
| DefinitionChecks.ArrayRanges | services/core/DNP3Agent/mesa/agent.py:846-847 | the ranges are exactly `[index, array_last_index]` of the array points |
| DefinitionChecks.BlockRanges | services/core/DNP3Agent/mesa/agent.py:863-864 | the ranges are exactly `[start, end]` of the selector-block points |
| DefinitionChecks.ReportsForSound | services/core/DNP3Agent/mesa/agent.py:855-859 | each report for a point names one of its bounds that lies in a differently named range |
| DefinitionChecks.ReportsForComplete | services/core/DNP3Agent/mesa/agent.py:855-859 | a differently named range holding either end of a point's range is always reported at that end |
| DefinitionChecks.OverlapReportsSound | services/core/DNP3Agent/mesa/agent.py:848-859 | every report of the whole check is justified by a pair of differently named ranges |
| DefinitionChecks.OverlapReportsComplete | services/core/DNP3Agent/mesa/agent.py:848-859 | every pair where one range holds either end of the other's range is reported |
| DefinitionChecks.ReportMeansOverlap | services/core/DNP3Agent/mesa/agent.py:848-859 | over well-formed ranges, every report names two intersecting, differently named ranges |
| DefinitionChecks.OverlapIsReported | services/core/DNP3Agent/mesa/agent.py:848-859 | two intersecting, differently named ranges never go unreported |
| DefinitionChecks.NoReportsIffDisjoint | services/core/DNP3Agent/mesa/agent.py:838-880 | over well-formed ranges, the check prints no error iff no two differently named ranges intersect |
| DefinitionChecks.BlockRangesWellFormed | services/core/DNP3Agent/base_dnp3_agent.py:669-674 | every selector block the catalog accepted has `start <= end` |
| DefinitionChecks.BlockCheckIffDisjoint | services/core/DNP3Agent/mesa/agent.py:861-877 | over an accepted catalog, the selector-block check prints no error iff no two blocks share an index |
| DefinitionChecks.ValidateDefinitions | services/core/DNP3Agent/mesa/agent.py:838-880 | each of the two lists (arrays, then selector blocks) reports exactly the ends of a range that lie in a differently named range of the same kind: every report is justified and every such end is reported |
| DefinitionChecks.OverlapReportsExact | services/core/DNP3Agent/mesa/agent.py:848-877 | checking ranges against themselves is sound and complete in that sense |
| ConverterConstants.DataTypeName | services/core/DNP3Agent/data/data_converter_constants.py:14-17 | each data type name is the two-character worksheet prefix |
| ConverterConstants.DataTypeNamed | services/core/DNP3Agent/data/data_converter_constants.py:14-17 | a name is resolved to the data type that has it, and to None for a name no data type has |
| ConverterConstants.OutputGroupsAreOutputTypes | services/core/DNP3Agent/data/data_converter_constants.py:14-17 | the default group is an output group (40 or 10) exactly for AO and BO |
| ConverterConstants.ExtraPointData | services/core/DNP3Agent/data/data_converter_constants.py:691-693 | a known (type, row) gives the table's override and any other gives the empty override |
| ConverterConstants.OverridesWellFormed | services/core/DNP3Agent/data/data_converter_constants.py:41-268 | every selector-block override has `index == selector_block_start <= selector_block_end`, and every array override has an index, a name, two columns and MAX_ARRAY_POINTS rows |
| ConverterConstants.AOSelectorsWellFormed | services/core/DNP3Agent/data/data_converter_constants.py:82-88 | the AO table's selector-block overrides are well formed |
| ConverterConstants.AISelectorsWellFormed | services/core/DNP3Agent/data/data_converter_constants.py:58-63 | the AI table's selector-block overrides are well formed |
| ConverterConstants.ExtraDataForFunction | services/core/DNP3Agent/data/data_converter_constants.py:680-682 | a known function gives its reference, step table or support point, and an unknown function or element gives None |
| ConverterConstants.ExtraStepLookup | services/core/DNP3Agent/data/data_converter_constants.py:685-688 | a step element is found iff the function has a steps table holding the step with that element set |
| ConverterConstants.ChargeDischargePublishes | services/core/DNP3Agent/data/data_converter_constants.py:333-339 | charge_discharge step 11 publishes and keeps its spreadsheet name, step 10 has no action, and the support point is DCHA.Beh |
| PyText.RStrip | services/core/DNP3Agent/data/data_converter.py:195 | `rstrip()` gives the longest prefix that does not end in whitespace; everything removed is whitespace |
| PyText.RStripIdempotent | services/core/DNP3Agent/data/data_converter.py:205 | stripping twice is stripping once |
| PyText.ScrubNewlinesFacts | services/core/DNP3Agent/data/data_converter.py:133 | replacing newlines and carriage returns keeps the length and every other character and leaves none of them; it is idempotent |
| PyText.ParseInt | services/core/DNP3Agent/data/data_converter.py:191 | `int()` of a string succeeds iff the stripped text is an optionally signed decimal numeral |
| PyText.ParseShowRoundTrip | services/core/DNP3Agent/data/data_converter.py:191 | `int(str(n)) == n` for every integer |
| PyText.Split | services/core/DNP3Agent/data/data_converter.py:215 | `split(',')` gives at least one part and no part contains the separator |
| PyText.JoinSplit | services/core/DNP3Agent/data/data_converter.py:215 | joining the parts of a split with the separator gives back the text |
| PyText.SplitJoin | services/core/DNP3Agent/data/data_converter.py:215 | splitting a join of separator-free parts gives back the parts |
| DataConverter.Converter.constructor | services/core/DNP3Agent/data/data_converter.py:59-69 | a new converter has no points, functions or allocated indexes |
| DataConverter.HighWater | services/core/DNP3Agent/data/data_converter.py:75-84 | the lazily computed maximum is never negative |
| DataConverter.HighWaterBounds | services/core/DNP3Agent/data/data_converter.py:75-84 | every existing index of the data type is at most the high-water mark, so the first allocated index is greater than all of them |
| DataConverter.HighWaterAttained | services/core/DNP3Agent/data/data_converter.py:76-84 | the mark is 0 or the reserved end of some point of the type (the index, extended by `cols*MAX_ARRAY_POINTS - 1` for an array) |
| DataConverter.HighWaterOfLaidOut | services/core/DNP3Agent/data/data_converter.py:76-84 | for indexes laid out in increasing order, the mark is the reserved end of the last point of the type |
| DataConverter.Converter.GetNextIndex | services/core/DNP3Agent/data/data_converter.py:71-87 | returns the stored next index, or one past the high-water mark on first use, and stores the result + 1 |
| DataConverter.Converter.AddPoint | services/core/DNP3Agent/data/data_converter.py:119-123 | the point is always appended; it is a duplicate iff its name is already indexed, and then the name index keeps the first point |
| DataConverter.PointIndexOf | services/core/DNP3Agent/data/data_converter.py:131-137 | the index is read iff the cell, after newline scrubbing, starts with the data type's two-character name followed by an integer, which is the index |
| DataConverter.PointNameOf | services/core/DNP3Agent/data/data_converter.py:138-144 | an empty or bad unique string is replaced by `type + '.' + Point Index`, so a name is never empty or bad |
| DataConverter.RowPoint | services/core/DNP3Agent/data/data_converter.py:125-154 | a skip override gives no point. A bad index cell without an index override is the only error. Otherwise the point has the data type's group and variation, the override's index or the cell's index, a good name and the row's description |
| DataConverter.Converter.LoadPoint | services/core/DNP3Agent/data/data_converter.py:125-160 | a row's point is appended and indexed, and a duplicate name is reported without replacing the first; a skipped or bad row changes nothing |
| DataConverter.Converter.CreateExtraOutputPoint | services/core/DNP3Agent/data/data_converter.py:162-172 | appends a point at the next index of the type with the type's defaults, advances that type's next index, and reports a duplicate name |
| DataConverter.Converter.GetOutputPointByName | services/core/DNP3Agent/data/data_converter.py:174-186 | an unknown name gives None and changes nothing. An output point (group 40 or 10) is returned itself. Otherwise a new `name.out` point is created, in BO for group 1 and in AO otherwise. The result and new state are `ResolveOutput` of the old state |
| DataConverter.MapCodes | services/core/DNP3Agent/data/data_converter.py:215 | the codes map iff every name is in FCODE_MAP; blank codes are dropped; an unknown code is named in the error |
| DataConverter.OptionalFlag | services/core/DNP3Agent/data/data_converter.py:205-211 | an empty stripped flag is no flag; M, O or C is kept; any other non-empty flag is an error |
| DataConverter.SavedFcodes | services/core/DNP3Agent/data/data_converter.py:212-218 | codes are saved only when more than one maps or select is among them |
| DataConverter.StepAction | services/core/DNP3Agent/data/data_converter.py:219-221 | a step's action is the table's non-empty action for that step |
| DataConverter.StepPointName | services/core/DNP3Agent/data/data_converter.py:193-195 | a step's point name is the table's name for the step when there is one, and otherwise the name cell without its trailing whitespace |
| DataConverter.ResolveOutputMeaning | services/core/DNP3Agent/data/data_converter.py:174-186 | in a well-formed state, resolving a name: an unknown name gives None and changes nothing; an output point's name leads to itself; an input point's name leads to its new `.out` output point, an error iff that name was in use; the state stays well formed and only grows |
| DataConverter.ParseRow | services/core/DNP3Agent/data/data_converter.py:190-220 | a row's step number, description, flag and codes are read as `int()`, OptionalFlag and SavedFcodes do; a parsed number selects the point name and action |
| DataConverter.RowStepValid | services/core/DNP3Agent/data/data_converter.py:188-225 | converting a row keeps the converter state well formed and only grows it |
| DataConverter.RowStepErrors | services/core/DNP3Agent/data/data_converter.py:188-225 | a bad step number is BadInteger with no change; an unresolved point drops the row; a bad flag after the point resolved is BadOptionalFlag; every error is a ValueError or an unknown code |
| DataConverter.RowStepFields | services/core/DNP3Agent/data/data_converter.py:188-225 | a row whose number parses, whose point resolves, and whose flag and codes are good gives a step; the step has the parsed number, an output point, the row description, the flag, the saved codes and the table action |
| DataConverter.StepsFold | services/core/DNP3Agent/data/data_converter.py:242-246 | the fold over rows keeps the steps so far as a prefix and adds at most one step per row; its only error is an unknown function code |
| DataConverter.StepsFoldValid | services/core/DNP3Agent/data/data_converter.py:242-246 | the fold keeps the converter state well formed and only grows it |
| DataConverter.StepsFoldResolved | services/core/DNP3Agent/data/data_converter.py:242-246 | every step the fold keeps names an output point of the state it ends in |
| DataConverter.Converter.LoadSteps | services/core/DNP3Agent/data/data_converter.py:242-246 | the loop over rows computes exactly `StepsFold`: its steps, its fatal error and the new state |
| DataConverter.Converter.CreateFunctionStep | services/core/DNP3Agent/data/data_converter.py:188-225 | the result and new state are exactly `RowStep` of the row read by `ParseRow`. A non-integer step is an error. An unresolved name drops the step. A good row yields a step naming an output point (the name or `name.out`) with the validated flag, the saved codes and the table action. A bad M/O/C flag is BadOptionalFlag. Errors are value errors or unknown codes |
| DataConverter.Converter.LoadFunction | services/core/DNP3Agent/data/data_converter.py:227-248 | the function is stored under its name with the table's reference and support point. Its steps, the error and the new state are exactly the fold `StepsFold` of `RowStep` over the rows; only an unknown code aborts |
| DataConverter.Converter.NextStep | services/core/DNP3Agent/data/data_converter.py:242-246 | one row is `RowStep`: its step is appended, a dropped row or a ValueError leaves the steps unchanged, and only an unknown code is fatal |
| DataConverter.ExtraRun | services/core/DNP3Agent/data/data_converter.py:259-260 | the other points are AO points at consecutive indexes, in order |
| DataConverter.Converter.AddOutputPoints | services/core/DNP3Agent/data/data_converter.py:260-261 | with no duplicate, the other points are appended as consecutive AO points from the next AO index, which advances by their number; a duplicate name is reported |
| DataConverter.Converter.AddOutputPointAt | services/core/DNP3Agent/data/data_converter.py:261 | one iteration appends the next name at the index after the run so far, a duplicate iff its name is in use |
| DataConverter.Converter.CreateSelectorHead | services/core/DNP3Agent/data/data_converter.py:253-256 | the next AO index advances by one; the head is a duplicate iff its name is in use, and otherwise it is appended at the old next AO index, tagged as a selector block |
| DataConverter.Converter.CreateArrayHead | services/core/DNP3Agent/data/data_converter.py:262-269 | the head is a duplicate iff its name is in use; otherwise it is appended at the next AO index with its columns and MAX_ARRAY_POINTS rows, and `2*MAX_ARRAY_POINTS` AO indexes are reserved |
| DataConverter.AddedRunLayout | services/core/DNP3Agent/data/data_converter.py:250-275 | the added points are consecutive AO output points. The selector comes first, starts at its own index when AO was already allocated, and ends at the last reserved index. The array head comes last with its columns, and for two columns it reserves exactly up to that end |
| DataConverter.Converter.AddPointsForAddedFunction | services/core/DNP3Agent/data/data_converter.py:250-275 | appends exactly `AddedRun`, and the next AO index is one past the last reserved index without consuming an extra one; a duplicate name is reported |
| DataConverter.Converter.CreateSelectorIfAny | services/core/DNP3Agent/data/data_converter.py:253-259 | a selector name adds one AO selector-block point at the next index |
| DataConverter.Converter.CreateLeadingPoints | services/core/DNP3Agent/data/data_converter.py:253-261 | the selector and other points form a consecutive run from the first free AO index |
| DataConverter.Converter.CreateOpenRun | services/core/DNP3Agent/data/data_converter.py:253-269 | adds the array head after the run and reserves `2*MAX_ARRAY_POINTS` indexes for it |
| DataConverter.Converter.CloseSelector | services/core/DNP3Agent/data/data_converter.py:271-275 | the selector's bounds are set to the start and to the last reserved index, and the next index is not advanced |
| DataConverter.Converter.CheckIndexesFor | services/core/DNP3Agent/data/data_converter.py:325-333 | no error iff the points of the data type have distinct indexes; an error names an index two of them share |
| DataConverter.IndexesUniqueByType | services/core/DNP3Agent/data/data_converter.py:324-333 | checking each of the four data types is checking the whole catalog |
| DataConverter.Converter.ValidatePoints | services/core/DNP3Agent/data/data_converter.py:315-340 | (corrected) no error iff indexes are unique per data type and every point's name indexes a point with the same data type and index; an error names a shared index or the two clashing points |
| DataConverter.NamesResolveIffUnique | services/core/DNP3Agent/data/data_converter.py:334-340 | with unique indexes, every name resolves to its own point iff all names are distinct |
| DataConverter.DuplicateNameAcceptedAsWritten | services/core/DNP3Agent/data/data_converter.py:334-340 | as written (index only), AI 5 "X" and BI 5 "X" pass the name check although the names clash |
| DataConverter.CheckFunctionSteps | services/core/DNP3Agent/data/data_converter.py:344-365 | one function's steps are recorded unless a point is already used by a step (both users named) or is not an output point |
| DataConverter.UsesDistinctByRecord | services/core/DNP3Agent/data/data_converter.py:344-356 | a walk that records every use without clash proves no point is used by two steps |
| DataConverter.Converter.ValidateFunctions | services/core/DNP3Agent/data/data_converter.py:342-365 | no error iff every point is used by at most one step across all functions and every used point is an output point (group 40 or 10); an error names the clashing functions or the input point |
| DataConverter.StepsUseOutputsExtend | services/core/DNP3Agent/data/data_converter.py:119-123 | appending points keeps every step's point resolving to the same output point |
| FunctionTest.PointsOf | services/core/DNP3Agent/tests/util/test_util.py:27-28 | the points are every payload entry except name, function_id and function_name, with their values |
| FunctionTest.PointsOfIdempotent | services/core/DNP3Agent/tests/util/test_util.py:27-28 | filtering points twice is filtering once |
| FunctionTest.Load | services/core/DNP3Agent/tests/util/test_util.py:15-28 | a loaded test keeps its payload, its points and its function id |
| FunctionTest.MandatoryNames | services/core/DNP3Agent/tests/util/test_util.py:38-45 | a name is listed iff some Mandatory step carries it, with no more names than steps |
| FunctionTest.MandatoryNamesConcat | services/core/DNP3Agent/tests/util/test_util.py:38-45 | the Mandatory names keep definition order: those of a concatenation are the first part's, then the second's |
| FunctionTest.GetMandatorySteps | services/core/DNP3Agent/tests/util/test_util.py:38-45 | a name is returned iff it is the name of a Mandatory step of the definition |
| FunctionTest.HasMandatorySteps | services/core/DNP3Agent/tests/util/test_util.py:47-62 | the given definition, or else the looked-up one, is used; none is DefinitionNotFound; true iff every Mandatory step is a payload key, and MissingMandatorySteps otherwise |
| FunctionTest.PointsResolve | services/core/DNP3Agent/tests/util/test_util.py:64-73 | true iff every point names a step of the definition, and PointsDoNotResolve otherwise |
| FunctionTest.IsValid | services/core/DNP3Agent/tests/util/test_util.py:75-92 | true iff the definition exists, the Mandatory steps are covered and all points name steps; a missing definition is reported as such, and the other failures are wrapped as validation errors, the Mandatory check first |
| FunctionTest.ValidTestKeys | services/core/DNP3Agent/tests/util/test_util.py:75-92 | a valid test has a key for each Mandatory step, and each of its other keys is a step name |
| FunctionTest.MandatoryPayloadValid | services/core/DNP3Agent/tests/util/test_util.py:75-92 | every function has a valid test: the one giving exactly its Mandatory steps |
| FunctionTest.AddStepKeepsValid | services/core/DNP3Agent/tests/util/test_util.py:75-92 | giving a value for one more step of the function keeps a valid test valid |
| FunctionTest.DropMandatoryInvalid | services/core/DNP3Agent/tests/util/test_util.py:47-62 | leaving out a Mandatory step always fails the Mandatory check |

## Left out

- File and format I/O are not modelled: the JSON comment filter and `json.loads` of the catalog, `yaml.load` of the function definitions, the spreadsheet and CSV reading and writing of the converter, the ASCII re-encoding in `scrubbed_cell_value`, and the JSON load of a function test. Their contents arrive as sequences of records or maps.
- The DNP3 stack is not modelled: `opendnp3` value wrapping and `DNP3Outstation.apply_update`. Echoes are returned as `Mesa.Instruction` values.
- Message-bus publishing, RPC and configuration are not modelled. A publish is the returned message value.
- Logging, printing, exception messages, `when_received` timestamps and float conversions are not modelled. Numbers are integers.
- `_points_by_variation` is not modelled. Its existence checks are inverted, so it never populates.
- `functions_by_id` and `function_for_id` are not modelled. The function-test check receives the looked-up definition as a parameter, `lookup`.
- Class-level shared catalogs are not modelled. Each catalog is instance state.
- The `supported` hard-coding in the FunctionDefinition constructor is left out. `supported` is a map that starts empty, which means supported, and that the support-point update writes.
- `sort_points`, `create_mesa_points`, `create_mesa_functions`, `save_point_defs`, `save_function_defs` and `run` are not modelled. They sequence the modelled operations over files.
- Python 2 dict iteration order is not modelled:
  - `validate_points` checks the data types in the fixed order AI, AO, BI, BO;
  - `validate_functions` visits functions in an unspecified order;
  - `validate_definitions` takes the name index's values as a sequence.
  Which error is reported first may therefore differ. Each error's contract does not depend on order.
- `extra_point_data` returns the table's own dict, which `load_point` then mutates. The alias is not modelled: the model returns a value. Loading the same row twice would behave differently in the source.
- `add_points_for_added_function` assigns `type` and selector bounds to dicts already appended to `point_defs`. This aliasing is modelled by rewriting that element of the sequence (`Retag`, `CloseSelector`).
- `add_point` raises on a duplicate after appending. The model returns the flag `duplicate`. The callers model the `ValueError` that `load_point` and `create_function_step` catch.
- Truthiness of a CROB function code is not modelled. Every control code is treated as truthy, so a CROB always resolves to Binary Output. In the source, a code whose numeric value is 0 (NUL) would resolve as Analog Output.
- Text is modelled as the converter's Python 2 byte strings: whitespace is space, tab, line feed, vertical tab, form feed and carriage return, and Unicode text is not modelled.
- Mesa.MesaAgent.ProcessPointValue: states the exact instructions only for a silent step and for an error of `Joined` (none). For echo and publish steps, the instructions and their failures are stated by Mesa.MesaAgent.StepActions and Mesa.MesaAgent.EchoStep.
- Mesa.MesaAgent.StepActions: states that the echo comes first and the message last, not the whole list; a publish's failure is stated by Mesa.MesaAgent.FunctionMessageFor.
- Mesa.MesaAgent.UpdateInputPoint: when several functions share one support point, the source updates only the one its dict comprehension keeps last. The model states only that some function with that support point is updated.
- Assembly.PointArray.AsJson: states only the row count. The cells are stated by Assembly.ArrayJsonCells about the function it returns.
- DefinitionChecks.NoReportsIffDisjoint: requires well-formed ranges. An array with zero rows or no columns has `array_last_index < index`, and its overlaps can go unreported.

## Findings

| source | as written | input that shows it | evidently intended | confidence | as-written member | corrected member |
|---|---|---|---|---|---|---|
| services/core/DNP3Agent/base_dnp3_agent.py:504-508 | `_expand_array_points` runs before the point type's table is created, and it indexes that table | a catalog whose first Analog Output point is an array with columns x, y | create the type table before expanding, so that the array and its columns load | high; not executed | Catalog.CurveFirstFailsAsWritten | Catalog.CurveFirstLoads, Catalog.PointDefinitions.LoadPoints, Catalog.PointDefinitions.LoadElement |
| services/core/DNP3Agent/mesa/agent.py:776-779 | `as_json` labels column i with the i-th name of the sorted column list, while cells are stored by position in the unsorted list | array columns `[y, x]`, with 7 written to column 0 (y) | label cell i with `array_points[i]`, so that y reads 7 | high; not executed | Assembly.ArrayJsonMislabels | Assembly.ArrayJsonCells |
| services/core/DNP3Agent/mesa/agent.py:545 | `_add_function_to_cache` clears `named_step_definitions`, not the cache `_named_step_definitions` | an index built, then a function added whose step name is new | invalidate the step-name index when a function is added | high; not executed | FunctionDefs.StaleIndexAfterAdd | FunctionDefs.FunctionDefinitions.AddFunction |
| services/core/DNP3Agent/data/data_converter.py:334-340 | name uniqueness is checked by comparing only the index of the named point | AI index 5 named X and BI index 5 named X | all names unique: compare data type and index | medium; not executed | DataConverter.DuplicateNameAcceptedAsWritten | DataConverter.Converter.ValidatePoints |
