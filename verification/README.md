# Verification model of goiec61850

A Dafny model of the parts of the repository where mistakes are easy and hard to see, with proofs
about all inputs, runs and interleavings. `dafny verify dfyconfig.toml` checks the whole project.

**The static model compiler (`scl/`).** Data type templates are unfolded into instance trees
(`Templates`, `References`, `Unfolding`, `Expansion`, `ModelWrapper`; when this comes to an end is the subject of
`Graphs` and `Termination`, and what it yields of `Instantiated`), instance values are laid over them
(`InstanceValues`, `SettingValues`), and the generator prints them as C records that point at each other by
name (`Generator`, `ForwardDecls`, `BlockPrinter`, `DataSets`). Printed text is modelled as a sequence of
records whose pointers are symbols; `PointerGraph` reads such a table back, and the main theorem is
that reading back inverts printing (`ModelTable.TableFaithful`, `EndToEnd.CompilerCorrect`). The
recursive print methods are proved equal to functions (`ModelRecords`), and these to one plain
layout of the model's tree (`Linking`), so a pointer printed in one method and the definition printed
in another are shown to carry the same name.

Such functions are written the way the source computes. What they compute is then said a second time, from the
input alone and without calling them: what each record says (`RecordContents`), what an instance of a
definition is (`Instantiated`), which value an attribute starts with (`InitialValues.ValuesExact`), which
control blocks a chain shows (`BlockContents`), which requests are sent and when they succeed
(`StatDr.AttemptSends`, `StatDr.PickedExact`), and so on for the others in the table below.

**The client.** The bounded worker pool of `GetVariableValues` as a state machine (`WorkerPool`), the
acquisition of a report control block against an arbitrary server (`StatDr`), flattening of an aligned
specification and value (`Flattening`), the grouping index over `$` names (`VariableIndex`), the type
printer (`SpecPrinter`), the memo cache of `GetDOType` (`DoTypeCache`) and the callback registries of
the GOOSE and SV receivers (`CallbackRegistry`).

Methods that change state in the source are methods here, on classes with the same state, and are
proved against functions; the theorems are about those functions.

## Where the code does less than it says

For each of these one lemma shows it at a concrete input, and another says for all inputs exactly when
the code is right.

| what | shown by | right if and only if |
|---|---|---|
| The command line offers any model prefix (`cmd/scltool/cmds/commands.go:70`), but the SE rewrite cuts at character 9. | `ModelTable.EditModelDangles` | eight characters, or nine followed by `SE`, `SE_SE` and so on: `ModelTable.PrefixExact` |
| Such a prefix may hold an underscore, and then GSE and SV addresses are looked up for the wrong device. | `ControlBlocks.UnderscorePrefixMisleads` | `ControlBlocks.DeviceNameRecovered` |
| Names with underscores can spell one symbol twice. | `ModelTable.UnderscoreCollides` | `ModelTable.UnderscoreExact` |
| Below a device called SE an SG attribute and its SE attribute get one symbol. | `ModelTable.SeDeviceCollides` | `ModelTable.SeDeviceExact` |
| A data object called `report0` gets the symbol of a report control block; the other kinds alike. | `AllSymbols.ReportCollides` | `AllSymbols.AllDistinctIff` |
| Templates are not checked for types that contain themselves: instantiation then recurses for ever. | `Termination.SelfReference`, but see `Termination.CycleBehindFailure` | `Termination.DevicesUnfold` |
| Elements of array attributes are defined but never declared, and sub-attributes of an array attribute are declared outside of its elements, where nothing defines them. | `ForwardDecls.ArrayElementUndeclared` | no array attribute: `ForwardDecls.DeclaredIsDefined`; what is declared in any case: `ForwardDecls.DeclaredAsFlat` |
| The first-entry pointer of a data set is printed even if there is no entry. | `DataSets.EmptyDataSetDangles` | no data set is empty: `DataSets.ModelDataSetsReadBack` |
| A GSE control without an address entry is listed but not printed. | `BlockPrinter.GseHeadDangles` | `BlockPrinter.NormalPassesAgree` |
| So is a second setting control. | `BlockPrinter.SettingChainLoops` | `BlockPrinter.NormalPassesAgree` |
| A DAI value reaches one attribute of an SG/SE pair only: the SG copy, or the SE attribute if it took the slot of an SP definition. | `SettingValues.SgCopyReceives`, `SettingValues.SpSlotReceives` | `SettingValues.ReceiverExact`, `SettingValues.SettingReceiver` |
| The data set of a report control block is not compared again after a take-over. | `StatDr.SecondReadUnchecked` | `StatDr.LatestReadNames`, `StatDr.PickedStillNamed` |
| Different specifications can print alike. | `SpecPrinter.CommaConfuses`, `SpecPrinter.BraceConfuses` | `SpecPrinter.AlphabetExact` |
| The cache key of `GetDOType` is ambiguous for classes of unequal length. | `DoTypeCache.ShortClassesCollide` | `DoTypeCache.KeysExact` |

## Model

| member | source | states |
|---|---|---|
| `PointerGraph.ReadsBack` | scl/static_model_generator.go:894-1122 | A table of records with pairwise distinct symbols, linked by parent, sibling and first child, reads back as the forest it was laid out from and as no other |
| `PointerGraph.ReadBackExact` | scl/static_model_generator.go:894-1122 | The reader yields a forest if and only if the pointers show it: each is resolved to the first record of its name, which names the parent it was reached from and carries the node's data, and shows the node's children from its first child and the later nodes from its sibling; NULL shows nothing |
| `PointerGraph.LayoutClosed` | scl/static_model_generator.go:957-1005 | Every parent pointer names an earlier record (or the root), every first child the next record, every sibling a later one: no dangling edge and no cycle |
| `PointerGraph.KeysDistinctIff` | scl/static_model_generator.go:895-967 | The places of a forest are distinct if and only if no two siblings, at any level, share a path to nodes of one copy |
| `PointerGraph.SymbolInjective` | scl/static_model_generator.go:896-938 | The spelling of a key as prefix, optional SE marker and underscore-joined path loses nothing, if no name holds an underscore and no logical device is called SE |
| `PointerGraph.SymbolsDistinctIff` | scl/static_model_generator.go:957-1005 | The symbols of a forest without underscores in names and without a device called SE are pairwise distinct if and only if its siblings are apart in that sense |
| `Linking.CutOnce` | scl/static_model_generator.go:963-967 | For a prefix that fits the cut, inserting SE_ at character 9 stays within the name and yields exactly the prefix, _SE and the rest; the result is recognised as marked and never marked again |
| `Linking.Spelling` | scl/static_model_generator.go:957-989 | Own symbol, symbol referred to by a sibling and symbol referred to by a parent are one and the same, although the source cuts at three different places |
| `Linking.DaLinked` | scl/static_model_generator.go:957-1122 | The attribute records printed by the recursive methods, arrays and SE branches included, are the correctly linked layout of the attribute forest |
| `Linking.ElementsLinked` | scl/static_model_generator.go:1028-1075 | An array attribute has Count indexed element records, linked as siblings, each over the sub-attributes |
| `Linking.DoLinked` | scl/static_model_generator.go:894-955 | The same for data objects, whose children are sub data objects followed by attributes in one sibling chain |
| `Linking.ModelLinked` | scl/static_model_generator.go:230-257 | The same for whole models: the printed table is the layout of the model forest |
| `ModelTable.TableFaithful` | scl/static_model_generator.go:230-257 | For every well-named model and fitting prefix the printed table has distinct symbols, no dangling or cyclic pointer, and reads back as exactly that model |
| `RecordContents.ContentsExact` | scl/static_model_generator.go:894-1107 | What the records of a well-named model say, told from the model alone: record i is about the i-th device, node, data object, attribute or array element in document order, is found under the symbol of its place, and gives an attribute its name, constraint, type, count, trigger options and short address, an element its index, count 0 and the array's constraint, type and trigger options, a data object its name and count; it is transient exactly if some data object above it is |
| `ModelTable.FaithfulIff` | scl/static_model_generator.go:230-257 | For names without underscore, no device called SE, and attributes that share the copy (SE or not) of the attribute they stand below, the table is faithful if and only if siblings are apart at every level |
| `ModelTable.PrefixExact` | scl/static_model_generator.go:213 | The table is faithful for every well-named model if and only if the prefix has 8 characters, or more and its tail t from character 9 on satisfies SE_ + t = t + _SE; for every other prefix a concrete model dangles |
| `ModelTable.EditModelDangles` | scl/static_model_generator.go:998-1000 | The model that shows it: the first child pointer of the one SE attribute names no record |
| `ModelTable.UnderscoreExact` | scl/static_model_generator.go:896 | Whatever characters names may use: all sibling-unique models without a device called SE have distinct symbols if and only if the underscore is not among them |
| `ModelTable.UnderscoreCollides` | scl/static_model_generator.go:896 | A model whose names are underscores only, in whose table two data objects have one symbol |
| `ModelTable.SeDeviceExact` | scl/static_model_generator.go:962-967 | Whatever the devices may be called: all models without underscores and with unique siblings have distinct symbols if and only if SE is not among the names |
| `ModelTable.SeDeviceCollides` | scl/static_model_generator.go:962-967 | The table of a device called SE with one setting: its SG and its SE attribute are printed under one symbol |
| `Generator.StaticModelGenerator.PrintDeviceModelDefinitions` | scl/static_model_generator.go:235-257 | Wherever no name is too short to cut, the loops append exactly the model table and, in order, the initial-value assignments; the symbol list gains exactly the symbols of the appended records |
| `Generator.StaticModelGenerator.PrintLogicalNodeDefinitions` | scl/static_model_generator.go:363-394 | The same for the nodes of one device |
| `Generator.StaticModelGenerator.PrintDataObjectDefinitions` | scl/static_model_generator.go:894-955 | The same for a list of data objects, with the caller's attribute as the last one's sibling and transience handed down |
| `Generator.StaticModelGenerator.PrintDataAttributeDefinitions` | scl/static_model_generator.go:957-1122 | The same for a list of attributes |
| `Generator.StaticModelGenerator.PrintBelow` | scl/static_model_generator.go:1006-1107 | The records below an attribute: array elements with their sub-attributes, or the sub-attributes |
| `Generator.StaticModelGenerator.PrintValue` | scl/static_model_generator.go:1109-1120 | Emits the instance value or else the shared default, resolving it in place; the shared defaults only ever move from unresolved to resolved |
| `Templates.LookupType` | scl/model.go:426-434 | First declaration with the identifier, none exactly if there is none |
| `Templates.OrdByName` | scl/model.go:436-444 | Ordinal of the first enumeration value with the text, none exactly if there is none |
| `Templates.ResolveOnce` | scl/model_wrapper.go:369-381 | However many attributes have been printed before, resolving a shared enumeration default gives what a fresh lookup of the original would |
| `Templates.ResolveExact` | scl/model_wrapper.go:369-381 | Resolving changes the value only; it leaves every default alone but an unset one with an enumeration type, whose value becomes the ordinal of the first value with the text in the first declaration with that identifier |
| `ForwardDecls.HeaderPrinter.PrintForwardDeclarations` | scl/static_model_generator.go:170-185 | The declaring loops, with their de-duplication maps, append exactly the specified declaration list |
| `ForwardDecls.HeaderPrinter.PrintByDO` | scl/static_model_generator.go:187-205 | The same for data objects, the shared map included |
| `ForwardDecls.HeaderPrinter.PrintByDA` | scl/static_model_generator.go:207-228 | The same for attributes |
| `ForwardDecls.DeclDosAll` | scl/static_model_generator.go:187-205 | If the symbols are distinct and new, the map drops no data object or attribute of an array-free subtree |
| `ForwardDecls.FewerLds` | scl/static_model_generator.go:207-228 | In general never more is declared than defined, and strictly less if an array attribute is present |
| `ForwardDecls.DeclaredIsDefined` | scl/static_model_generator.go:170-257 | For a well-named model and fitting prefix, declarations, definitions and the symbol list are equal sequences if and only if the model has no array attribute |
| `ForwardDecls.ArrayElementUndeclared` | scl/static_model_generator.go:207-228 | A well-named model with one array attribute: its element is defined and never declared, and its sub-attribute is declared outside of the element and never defined there |
| `ForwardDecls.DeclaredAsFlat` | scl/static_model_generator.go:170-228 | Whatever arrays a well-named model has: declared, in the same order, is exactly what would be defined if every array attribute were a single one |
| `ControlBlocks.DeviceNameRecovered` | scl/static_model_generator.go:425-426 | What splitting a device symbol at underscores gives, for every prefix: the device name if and only if neither prefix nor name has an underscore, or the prefix has one and the name happens to be what follows it |
| `ControlBlocks.UnderscorePrefixMisleads` | scl/static_model_generator.go:515-516 | With the prefix my_model every device is looked up as model |
| `ControlBlocks.BlockNameInjective` | scl/static_model_generator.go:1326 | Block names tell the logical node and the number, per kind |
| `ControlBlocks.PassesAgree` | scl/static_model_generator.go:1313-1359 | The names listed in the first pass equal the names printed in the second if and only if the counts agree at every logical node |
| `Chains.WalkIff` | scl/static_model_generator.go:295-335 | Following next from the head shows every item once, in order, and ends, if and only if the listed names are the items' own |
| `ControlBlocks.ChainComplete` | scl/static_model_generator.go:295-335 | The chain of a kind visits every printed block once, in document order, and ends in NULL, if and only if as many blocks are printed as were listed, at every logical node |
| `BlockPrinter.AllPassesAgree` | scl/static_model_generator.go:1313-1359 | All six kinds agree if and only if every GSE control has an address entry under the name recovered for its device, no node has two setting controls, and the instances of the reports that are not indexed add up to their number |
| `BlockPrinter.NormalPassesAgree` | scl/static_model_generator.go:1313-1359 | For reports as the parser leaves them: if and only if the first two hold |
| `BlockPrinter.GseCount` | scl/static_model_generator.go:521-522 | A node prints as many GSE blocks as it lists if and only if every one of its GSE controls has an entry |
| `BlockPrinter.SitesDistinct` | scl/static_model_generator.go:1316-1326 | In a well-named model different logical nodes have different symbols |
| `BlockPrinter.ChainsComplete` | scl/static_model_generator.go:295-335 | For every well-named model: all six chains show every printed block once, in order, if and only if those conditions hold |
| `BlockContents.BlocksShown` | scl/static_model_generator.go:396-779 | What is printed for the nodes of a model, told from the nodes: the i-th log and log control block are the i-th ones of the node; the i-th sampled-value block is the i-th one with the first address entry of that device and name, if any; the GSE blocks are those with an entry, in order, each with its entry; each report is there once, or, if it is indexed, max times (once without a maximum) with the indices 01, 02 and so on; the setting block is the first one; each under the name of its node, kind and number |
| `BlockContents.ChainShowsNodes` | scl/static_model_generator.go:295-335 | Under the conditions of `BlockPrinter.ChainsComplete`, following the pointers of the printed chain of a kind shows just that |
| `BlockContents.Pad2Reads` | scl/static_model_generator.go:731 | The index of a report instance is its number in decimal, with a zero in front below ten |
| `BlockPrinter.GseHeadDangles` | scl/static_model_generator.go:521-522 | A well-named model with a GSE control without entry: the head of the chain names nothing |
| `BlockPrinter.SettingChainLoops` | scl/static_model_generator.go:399-400 | A well-named model with two setting controls at one node: the printed block points to itself |
| `BlockPrinter.ControlBlockPrinter.CreateLNSubVariableList` | scl/static_model_generator.go:1313-1359 | The loops append to the six name lists exactly the names of all sites |
| `BlockPrinter.ControlBlockPrinter.PrintControlBlocks` | scl/static_model_generator.go:386-393 | The printing loops, with their six running counters, append exactly the cells of all entries, which `BlockContents.BlocksShown` tells from the nodes |
| `BlockPrinter.ControlBlockPrinter.PrintReportControlBlocks` | scl/static_model_generator.go:714-779 | Reports of one node: one block per instance if indexed, else one, numbered throughout |
| `BlockPrinter.ControlBlockPrinter.PrintGSEControlBlocks` | scl/static_model_generator.go:511-588 | GSE controls without an address entry are skipped and take no number |
| `BlockPrinter.ControlBlockPrinter.PrintSVControlBlocks` | scl/static_model_generator.go:421-509 | Sampled-value controls are all printed, with their address entry if they have one |
| `BlockPrinter.ControlBlockPrinter.PrintSettingControlBlock` | scl/static_model_generator.go:396-419 | Only the first setting control is printed |
| `BlockPrinter.ControlBlockPrinter.PrintMany` | scl/static_model_generator.go:590-712 | Logs and log control blocks: all printed, in order |
| `BlockPrinter.NormaliseReports` | scl/parser.go:167-198 | Succeeds exactly if every block can be normalised; in the result a block that is not indexed has one instance, so that as many are printed as listed |
| `BlockPrinter.NormaliseExact` | scl/parser.go:167-198 | What the parser makes of a report: indexed unless the text says otherwise; a maximum exactly if RptEnabled is there, 1 if it says nothing, else the number it says; and a block that is not indexed has none other than 1 |
| `BlockPrinter.UnnormalisedBreaks` | scl/parser.go:192-196 | Without the rule that a non-indexed block has max = 1 a next pointer dangles |
| `DataSets.DataSetPrinter.PrintDataSets` | scl/static_model_generator.go:1189-1310 | The two passes append exactly the specified data set records and entry records |
| `DataSets.DataSetPrinter.PrintEntries` | scl/static_model_generator.go:1221-1282 | The entries of one data set, chained and ending in NULL |
| `DataSets.DsSymbolInjective` | scl/static_model_generator.go:1195 | A data-set symbol tells device, node and data set, even if the data set's own name holds underscores |
| `DataSets.DistinctIffUnique` | scl/static_model_generator.go:1195 | In a well-named model the data-set symbols are distinct if and only if the data sets of each logical node have different names |
| `DataSets.FcdaFound` | scl/static_model_generator.go:1221-1229 | An entry symbol leads to that entry's record |
| `DataSets.EmptyDangles` | scl/static_model_generator.go:1297 | The first-entry pointer of an empty data set names no record |
| `DataSets.EmptyDataSetDangles` | scl/static_model_generator.go:1297 | A well-named model with an empty data set: its record points to an entry and none is printed |
| `DataSets.ModelDataSetsReadBack` | scl/static_model_generator.go:1284-1303 | In a well-named model whose nodes have uniquely named data sets, following the pointers lists, device by device and node by node, every data set with all its entries in order, if and only if none is empty |
| `AllSymbols.AllDistinctIff` | scl/static_model_generator.go:230-588 | For every well-named model and fitting prefix: no two of all printed things (model, nodes, control blocks of all kinds, address objects of GSE and SV blocks, data sets, entries) share a symbol if and only if no data object is called like a control block of its node, data sets of a node have different names, and none is called like an entry of another |
| `AllSymbols.EverySymbol` | scl/static_model_generator.go:230-588 | The printed symbols are just these: the model's, that of each record, node and kind and number of each printed block, its address object if it has an entry, and device, node and name of each data set and the numbers of its entries |
| `AllSymbols.ReportCollides` | scl/static_model_generator.go:1326 | A well-named model with a data object called report0 beside a report control block |
| `Termination.DaUnfolds` | scl/model_wrapper.go:239-278 | Instantiation of an attribute definition comes to an end if and only if no cycle is met along the references it follows, which are those behind references that succeed; it yields an attribute if and only if every reference reachable from the definition is declared and of the right kind and none of the reachable types reaches itself; a depth of as many levels as there are declarations is always enough |
| `Termination.DoUnfolds` | scl/model_wrapper.go:43-69 | The same for a data object definition |
| `Termination.LnUnfolds` | scl/parser.go:125-139 | The same for a logical node type |
| `Termination.DevicesUnfold` | scl/parser.go:89-139 | The same for all devices: an end if and only if every device behind ones that succeed has an undeclared node type or no node that is come to runs into a cycle; success if and only if every node type is sound and acyclic |
| `Termination.SoundAnswers` | scl/model_wrapper.go:254-278 | If every reachable reference is to a declaration of the right kind, instantiation ends if and only if no reachable type reaches itself |
| `Termination.SelfReference` | scl/model_wrapper.go:254-278 | With an attribute type whose first member is constructed of the same type, no depth is enough |
| `Termination.CycleBehindFailure` | scl/model_wrapper.go:254-278 | With a member of an undeclared type in front of such a member the answer is the error: the cycle is reachable and never followed |
| `Unfolding.OneAnswer` | scl/parser.go:89-139 | Two instantiations that come to an end within different depths have the same outcome |
| `Instantiated.DaExact` | scl/model_wrapper.go:175-278 | Instantiating an attribute definition can yield an attribute if and only if it is an instance of it: name, type, count and place for defaults are the definition's; constraint and trigger options are those handed down, else the definition's; it has no value and no short address; unless it is constructed it has no sub-attributes, and an enumerated one refers to an enumeration; a constructed one has one sub-attribute per member of the first declaration with its type, each an instance of that member with its constraint and trigger options |
| `Instantiated.DoExact` | scl/model_wrapper.go:43-159 | The same for data objects: name, count and transience are the definition's, the sub data objects are instances of those of the first declaration with its type, in order, and the attributes result from placing an instance of each attribute definition, behind an SG copy for an SE one, which takes the place of the first SP attribute of its name if there is one |
| `Instantiated.DevicesExact` | scl/parser.go:89-139 | The same for all devices and nodes: each node has one data object per definition of the first declaration with its type |
| `Expansion.UniformInheritance` | scl/model_wrapper.go:184-202 | Every descendant of an attribute with a functional constraint has that constraint and those trigger options |
| `Expansion.UniqueExpansion` | scl/model_wrapper.go:111-142 | Whenever definitions with unique names expand, the attributes are the definitions in order, each SE one preceded by its SG copy |
| `Expansion.ExpansionCounts` | scl/model_wrapper.go:111-142 | For any definitions: no SP before an SE of its name; SG counts SE plus SG definitions; every other constraint but SP keeps its number; length is short by exactly the replaced SP attributes |
| `Expansion.AddKeepsSpReplaced` | scl/model_wrapper.go:126-141 | Placing one attribute keeps that no SP precedes an SE of its name |
| `Expansion.ApartIff` | scl/model_wrapper.go:111-142 | Definitions expand to attributes that stay apart (one per name, or one SE and one other) if and only if they share a name only as an SP definition followed by an SE definition |
| `Expansion.UnfoldedLnClean` | scl/model_wrapper.go:100-145 | Whenever a node type unfolds and all declarations it leads to are clean, such pairs included, its data objects have names that are unique up to the SG/SE pair and uniform constraints |
| `ModelWrapper.NewDataAttribute` | scl/model_wrapper.go:175-217 | Whenever instantiation comes to an end: returns the pure unfolding or its first failure; on success marks exactly the reachable types, on failure only reachable ones |
| `ModelWrapper.CreateConstructedAttribute` | scl/model_wrapper.go:254-278 | The same for the constructed branch |
| `ModelWrapper.CreateEnumeratedAttribute` | scl/model_wrapper.go:239-252 | The same for the enumerated branch |
| `ModelWrapper.DataObjectNode.Place` | scl/model_wrapper.go:126-141 | Appends the attribute, or overwrites the first SP slot of its name by an SE in place |
| `ModelWrapper.DataObjectNode.CreateDataAttributes` | scl/model_wrapper.go:100-145 | The filled-in attributes are the pure expansion of the definitions |
| `ModelWrapper.DataObjectNode.CreateSubDataObjects` | scl/model_wrapper.go:147-159 | The filled-in sub data objects are the pure unfoldings in order |
| `ModelWrapper.NewDataObject` | scl/model_wrapper.go:43-69 | The same for data objects |
| `ModelWrapper.InstantiateLogicalNode` | scl/parser.go:125-139 | The same for one logical node |
| `ModelWrapper.InstantiateDevice` | scl/parser.go:96-139 | The same for one device, whose node types are all looked up before the first node is instantiated |
| `ModelWrapper.InstantiateAll` | scl/parser.go:89-139 | The same for all devices, in order, up to the first failure |
| `ModelWrapper.UsedIsReachable` | scl/parser.go:125-139 | After success a declaration is marked used if and only if it is reachable from some logical node's type |
| `InstanceValues.ParseDataAttributeNodes` | scl/parser.go:427-455 | The loop over DAI elements computes the specified result or its first failure |
| `InstanceValues.ParseDataObjectNodes` | scl/parser.go:240-250 | The same for DOI elements |
| `InstanceValues.DaisEffect` | scl/parser.go:427-455 | An attribute changes if and only if it is the first of its name and some DAI with a value names it; it then holds the last such value, and the last short address that comes with one, if any; nothing else changes |
| `InstanceValues.DaisAccepted` | scl/parser.go:427-455 | A list of DAIs is taken if and only if each names an attribute and gives it, where it gives a value, one that converts to its type |
| `InstanceValues.FirstRejected` | scl/parser.go:427-455 | Otherwise the failure is that of the first DAI that does not: an unknown attribute or a value that does not convert |
| `InstanceValues.DoisEffect` | scl/parser.go:240-250 | A data object changes if and only if it is the first of its name and some DOI names it; it is then what the DAIs of all these DOIs, one after the other, make of it |
| `InstanceValues.DoisAccepted` | scl/parser.go:240-250 | A list of DOIs is taken if and only if each names a data object and the DAIs for each data object are taken |
| `SettingValues.ReceiverExact` | scl/parser.go:427-455 | Of all attributes of a name exactly one takes the value of the last DAI for it, and its functional constraint is told by the definitions; the others stay |
| `SettingValues.SettingReceiver` | scl/model_wrapper.go:126-141 | For a setting: the SE attribute is that one if and only if it took the slot of an SP definition standing before it; otherwise the SG copy is |
| `SettingValues.SpSlotReceives` | scl/model_wrapper.go:131-135 | An SP and then an SE definition: the SE attribute receives the value |
| `SettingValues.SgCopyReceives` | scl/model_wrapper.go:112-119 | An SE definition alone: the SG copy receives the value |
| `InitialValues.InitializersExact` | scl/static_model_generator.go:1109-1120 | For every well-named model and fitting prefix: an attribute of the model, below arrays once per element, has the assignment of a value under its symbol and of its type if and only if that is its value; every assignment is of that kind; and no symbol is assigned twice |
| `InitialValues.ValuesExact` | scl/static_model_generator.go:1109-1120 | The value assigned to an attribute, told without the look-up: its own if it has one, else the one its definition's default stands for, as `Templates.ResolveExact` says, else none |
| `InitialValues.EmittedValue` | scl/static_model_generator.go:1109-1120 | What is assigned to an attribute that instance values have been laid over: the last value given for it if it is the first of its name, converted to its type; else what its definition's default stands for; else nothing |
| `InstanceValues.DoisKeepShape` | scl/parser.go:240-250 | Instance values leave the shape of a logical node alone |
| `EndToEnd.CompilerCorrect` | scl/static_model_generator.go:230-257 | From node types that lead to clean declarations only, through instantiation and instance values, to the printed table: whatever compiles is well-named, its records say what `RecordContents.ContentsExact` says, and they read back as that very model |
| `EndToEnd.CompiledExact` | scl/parser.go:125-250 | A node is compiled from a node type if and only if its data objects are an instance of the type in the sense of `Instantiated` with instance values laid over in the sense of `InstanceValues` |
| `WorkerPool.StepKeepsInv` | client_ld.go:29-95 | Every step of pool, channel and collector keeps the invariant |
| `WorkerPool.RunSafe` | client_ld.go:41-94 | On every interleaving at most two tasks are active and nothing is sent on the closed channel |
| `WorkerPool.TwoAtATime` | client_ld.go:41-47 | Two tasks can be reading at once, so the limit is exactly two |
| `WorkerPool.NoDeadlock` | client_ld.go:29-95 | In every state that keeps the invariant and has not returned some step is enabled |
| `WorkerPool.RunBounded` | client_ld.go:29-95 | Every run over n tasks ends within 5n + 5 steps |
| `WorkerPool.Conservation` | client_ld.go:91-95 | When the call returns, some order has each task exactly once, and the slice is their batches one behind the other in that order |
| `WorkerPool.BatchRecorded` | client_ld.go:71-84 | A task's batch is what its read came back with, or one placeholder if it failed |
| `StatDr.SameDataSetIs` | client_statdr.go:12-20 | Two references compare equal if and only if they have equal length and agree at every character up to $ and . |
| `StatDr.Client.PickAndEnableStatDRBRCB` | client_statdr.go:30-119 | Asks for the directory of the node, and on success sends exactly the specified requests and returns the specified block; the theorems below tell both from the server's answers |
| `StatDr.Client.TryCandidate` | client_statdr.go:47-110 | The same for one candidate |
| `StatDr.Safe` | client_statdr.go:42-119 | Whatever the server answers: writes go only to candidates whose first read named the requested data set, enabling only follows a latest read that showed the block free, and a returned block is the last and only one enabled |
| `StatDr.AttemptSends` | client_statdr.go:47-110 | The requests of an attempt, told from the answers: the read alone unless it shows the data set; for a free block trigger options dchg and GI, buffer time 50, GI and enable, each once and in this order; for an enabled block a disable, then a second read unless that failed, and those four behind it if the second read shows a free block |
| `StatDr.AttemptSucceeds` | client_statdr.go:47-110 | An attempt succeeds if and only if the first read shows the data set and either the block is free and the fifth answer is good, or disabling succeeds, the second read shows the block free and the seventh answer is good |
| `StatDr.PickedExact` | client_statdr.go:42-119 | The outcome of the run, told from the answers: none is returned if and only if no candidate with the prefix is reached and meets that condition; otherwise the one that does is returned |
| `StatDr.PickedWins` | client_statdr.go:42-116 | The returned block is the first candidate whose attempt succeeds, whatever an attempt consists of |
| `StatDr.NonePicked` | client_statdr.go:118 | When none is returned no candidate's attempt succeeds |
| `StatDr.LatestReadNames` | client_statdr.go:66-86 | A successful attempt has last read the requested data set if and only if the block was free at its start or the read after the take-over shows that data set |
| `StatDr.PickedStillNamed` | client_statdr.go:42-116 | The same for the returned block over the whole run |
| `StatDr.SteadyIsSafe` | client_statdr.go:42-116 | With a server that never changes the data set of the block it hands out, its latest read names the requested one |
| `StatDr.SecondReadUnchecked` | client_statdr.go:66-86 | A server for which a block with another data set is enabled |
| `SpecPrinter.WriteVarSpec` | mms_spec_stringer.go:18-102 | Appends exactly the specified text to the builder, whatever it holds |
| `SpecPrinter.NameTexts` | types_stringer.go:108-160 | The types printed by name alone have the names of their numbers, and unknown types show the number |
| `SpecPrinter.BitTexts` | mms_spec_stringer.go:44-73 | Integers, unsigned ones and bit strings show their size in bits unless it is zero |
| `SpecPrinter.ByteTexts` | mms_spec_stringer.go:74-97 | The strings and binary times show their size unless it is zero |
| `SpecPrinter.FloatTexts` | mms_spec_stringer.go:56-67 | Floats show those of their two sizes that are not zero |
| `SpecPrinter.ComposedTexts` | mms_spec_stringer.go:20-43 | Arrays show their length and element, structures the fields in order, with their names if they have any, separated by commas |
| `SpecPrinter.Unambiguous` | mms_spec_stringer.go:18-102 | Two texts of specifications with plain names, each followed by anything that may follow, are equal only if shapes and continuations are |
| `SpecPrinter.PrintingTellsShape` | mms_spec_stringer.go:18-102 | Specifications whose names hold no opening brace, nor comma and space together, print the same if and only if they agree up to what the printer omits; all other punctuation in names does no harm |
| `SpecPrinter.AlphabetExact` | mms_spec_stringer.go:18-102 | Whatever characters beside letters names may use: the text tells the shape of every specification if and only if the opening brace is not among them, nor comma and space both |
| `SpecPrinter.CommaConfuses` | mms_spec_stringer.go:32-40 | With a comma and a space in a name one field prints like two |
| `SpecPrinter.BraceConfuses` | mms_spec_stringer.go:30-43 | With an opening brace in names two structures of different nesting print the same |
| `Flattening.GetVariableTypeValues` | mms_spec.go:307-321 | Fails exactly on incompatible pairs; else returns one record per aligned leaf place, in order, each with the reference, name, type and value of its place |
| `Flattening.Collector.Visit` | mms_spec.go:221-305 | The recursive closure appends exactly the specified leaves, or fails exactly when the specification does |
| `Flattening.WalkSucceeds` | mms_spec.go:223-265 | The walk succeeds if and only if specification and value are compatible at every aligned place |
| `Flattening.PathsAreLeaves` | mms_spec.go:222-305 | The listed places are the aligned leaf places, all of them and nothing else |
| `Flattening.PathsOrdered` | mms_spec.go:238-289 | Each place is listed once, in preorder |
| `Flattening.WalkFollowsPaths` | mms_spec.go:291-303 | The k-th record carries the reference, name, type and value of the k-th place |
| `Flattening.NameIsInnermost` | mms_spec.go:239-303 | The name of a place is the innermost name on the way to it, followed by the array positions behind that name; where nothing is named, what the walk started with |
| `Flattening.StartNameExact` | mms_spec.go:307-315 | What the walk starts with: the name of the specification, else what stands behind the last dot of the reference, else the whole reference |
| `Flattening.RefsTellPlaces` | mms_spec.go:239-280 | If fields are named, unique and free of . and [, different leaf places have different references |
| `Flattening.ListDetermines` | mms_spec.go:205-322 | Then two values of the same outline with the same list agree at every leaf |
| `VariableIndex.ParseInvertsSpelling` | mms_spec.go:111-122 | A name is split into three components and a remainder, and is the only name that is |
| `VariableIndex.SelectedIff` | mms_spec.go:111-136 | A key is selected if and only if some name has those first three components |
| `VariableIndex.SelectedExact` | mms_spec.go:111-136 | The list of a key holds the remainder of each name with that key, each at the place told by how many such names stand before it; names of just three components have the key and add nothing |
| `VariableIndex.LessExact` | mms_spec.go:138-144 | The sort order of names: a proper beginning is less, and so is the one with the smaller character where two first differ |
| `VariableIndex.InsertGet` | mms_spec.go:124-135 | One insertion changes the entry of its own key and no other |
| `VariableIndex.Group` | mms_spec.go:109-136 | The nested maps hold, per key, exactly the in-order remainders of the names with that key; a key exists if and only if it is selected |
| `VariableIndex.ToSorted` | mms_spec.go:138-144 | Whatever order the map is iterated in, the result is strictly sorted and holds the whole index |
| `VariableIndex.SortedUnique` | mms_spec.go:138-144 | There is one such result |
| `VariableIndex.GetLogicalDeviceVariablesHierarchical` | mms_spec.go:103-146 | The two together |
| `DoTypeCache.DataSetDetail.GetDOType` | scl_xml/scl.go:33-74 | Answer and new cache are those of the specified lookup |
| `DoTypeCache.SearchExact` | scl_xml/scl.go:50-73 | The uncached answer is the first declaration whose identifier is the type of the first data object of that name in the first node type that is called prefix and class together or is of that class; where there is no such data object, the first one with an empty identifier; nothing else is found |
| `DoTypeCache.MemoInvisibleIff` | scl_xml/scl.go:44-48 | Over a set of queries the cache never shows in any call sequence if and only if queries with equal keys have equal uncached answers |
| `DoTypeCache.KeysExact` | scl_xml/scl.go:36-48 | Whatever the templates, the cache never shows over a set of queries if and only if different queries of the set have different keys |
| `DoTypeCache.KeyInjective` | scl_xml/scl.go:36-40 | Keys tell prefix, class and name apart for four-character classes and prefixes and names without slash |
| `DoTypeCache.MemoInvisible` | scl_xml/scl.go:33-74 | For such queries every sequence of calls returns the uncached answers |
| `DoTypeCache.ShortClassesCollide` | scl_xml/scl.go:36-40 | With classes of other lengths two queries share a key and the second gets the first one's answer |
| `CallbackRegistry.ReceiverObject.AddSubscriber` | goose_receiver.go:79-98 | The table maps the id to the subscriber and the receiver has the id |
| `CallbackRegistry.ReceiverObject.RemoveSubscriber` | goose_receiver.go:100-109 | Both forget the id |
| `CallbackRegistry.ReceiverObject.Destroy` | goose_receiver.go:143-152 | The loop takes exactly the receiver's ids out of the table |
| `CallbackRegistry.System.Perform` | goose_receiver.go:79-152 | Every method of receivers and registry does to the objects exactly what its operation does to the state that the theorems are about |
| `CallbackRegistry.System.Report` | goose_receiver.go:59-70 | A report reaches the handler that state dispatches to |
| `CallbackRegistry.Registry.NewSubscriber` | goose_subscriber.go:51-56 | The next id of the wrapping counter |
| `CallbackRegistry.DispatchesToOwner` | goose_receiver.go:59-70 | On every run shorter than the id space the ids are 1001, 1002 and so on in order of creation, are never reused, and reach their own subscriber's handler or nobody |
| `CallbackRegistry.DispatchExact` | goose_receiver.go:59-152 | A subscriber's handler is called if and only if it has been added at some step and neither removed nor had its receiver destroyed since |
| `CallbackRegistry.SilencedAfter` | sv_receiver.go:117-171 | After Remove or Destroy an id does not dispatch again until it is added again |
| `CallbackRegistry.RunKeepsPartition` | sv_receiver.go:99-126 | On every disciplined run the table's ids are the disjoint union of the live receivers' ids |
| `CallbackRegistry.DisciplineExact` | goose_receiver.go:79-109 | From such a state a step keeps this if and only if no other live receiver has the subscriber being added or removed |

## Left out

- XML decoding, schema validation, file output, logging: inputs are decoded trees, output is records.
- The text of the C files: struct syntax, comments, include guards, `#define` lines, per-type literals of initial values, and the literal texts of TrgOps and OptFlds; a control block record carries its source entity.
- DNS lookup of client addresses in report control blocks (`scl/static_model_generator.go:747`).
- Names and array indices of data set entries (`scl/static_model_generator.go:1233-1272`): one opaque string per entry.
- Conversion of instance and default text to values, and of short addresses to numbers: parameters.
- SDI elements: `parseSubDataInstances` is never called by `Parse`.
- Communication section, MAC and APPID parsing, GSE type and smpMod checks, and the defaults of trigger options.
- Models in which sampled-value or GSE controls occur without a ConnectedAP or SmvOpts, on which the source stops with a nil dereference.
- Generator.StaticModelGenerator.PrintLogicalNodeDefinitions: control blocks, which the source prints from the same loop into other buffers, are printed by `BlockPrinter.ControlBlockPrinter`; the buffers do not interact.
- InstanceValues.ParseDataAttributeNodes: instance trees are values, so two paths to one attribute object are not modelled; no such sharing arises from unfolding, and the defaults that definitions do share are a map keyed by definition.
- ModelWrapper.InstantiateAll: the other checks that the parser makes on each node after its data objects (reports, GSE type, smpMod, settings, instance values) are modelled apart from instantiation or not at all, so which of several errors of different kinds is reported first is not modelled.
- ModelWrapper.NewDataAttribute: the source has no bound on its recursion; its methods are described for all inputs on which it comes to an end within some depth, and `Termination` says exactly which these are.
- WorkerPool.RunSafe: the early return while the task list is built, and the insides of errgroup, channels and WaitGroup beyond their documented behaviour.
- CallbackRegistry.DispatchesToOwner: each operation is one atomic step, as under the registry's lock; adding to a destroyed receiver, a write to a nil map, is outside.
- StatDr.Client.PickAndEnableStatDRBRCB: the function it returns beside the block, which disables the block again with one more request.
- Flattening.GetVariableTypeValues: specification and value are arguments; fetching them is a call into the C library.
- The client, server, MMS and publisher wrappers around the C library, TLS, and asynchronous calls.
- Enumeration and string tables, bit mappings of options, pretty printing of data models.
