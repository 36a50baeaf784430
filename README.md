# OpenFlow agent for a PON OLT — a Dafny model

The agent sits between an SDN controller speaking OpenFlow 1.3 and an OLT (optical line
terminal) driven over gRPC, with ONUs configured over OMCI (ITU-T G.988). The controller sends
flows, meters and groups one at a time; the agent stores and validates them, walks the flow tables
to assemble complete subscriber "services" (Internet, VoIP or multicast), and provisions each service
on the OLT as traffic schedulers, traffic queues, flows and multicast groups, rolling back on a
refusal. This project models that core and proves its properties:

- `FlowStore`, `FlowDecode`, `Validation`, `MetersGroups`, `Stats`, `Switch` and `Reconcile`
  model `src/onosAdaptor.py`: the table-indexed flow store, FLOW_MOD decoding with
  OFPVID_PRESENT (0x1000, section 7.2.3.8 of the OpenFlow Switch Specification 1.3), the admission
  and classification rules of `check_flows`, the meter band reduction, the statistics lists, the
  role reply and the meter/group delete guards, and the backward/forward table walk.
- `PortNumbers`, `Capabilities`, `Allocators`, `VlanTags`, `Hardware` and `Provisioning` model
  `src/oltDevice.py`: port-number packing, the capability word, the GEM port, ONU id and VoIP
  extension allocators, the C/S tag split, priority preemption, the install and uninstall sequences
  over `olt_services` with their rollbacks, and the `flow_ids_to_hash` reverse index used when a
  controller flow is deleted.
- `Services` models `src/oltServices.py`: scheduler and queue lists by direction, priority
  comparison, tag derivation and flow generation, and multicast membership.
- `OnuMib` and `OmciEncoders` model the `OnuMIB` cache and the OMCI field encoders of
  `src/oltAdaptor.py`; `OmciDefs` and `Omci` model `bitpos_from_mask` and `omciError_to_str`.
- `Dicts` (Python's insertion-ordered `dict`), `Sorting` (`sorted`), `Wrappers` (`None`) and
  `OpenFlow` (the decoded flow record) are shared definitions.

Every call into the OLT's gRPC service is an abstract call whose answer is an arbitrary boolean,
given by an oracle parameter that sees the call and its position in the call log. The SHA-256
flow hash is an uninterpreted function parameter; times are parameters.

## Model

| member | source | states |
|---|---|---|
| FlowStore.ContainsCookie | src/onosAdaptor.py:71-73 | true exactly when some flow of the list carries the cookie |
| FlowStore.FirstCookieIndex | src/onosAdaptor.py:78-80 | the index of a flow carrying the cookie with none before it |
| FlowStore.FirstCookieAt | src/onosAdaptor.py:76-82 | a flow carrying the cookie after none that does is the one `delete` removes, and the removal only drops flows |
| FlowStore.RemoveFirstCookieCount | src/onosAdaptor.py:80 | removing the first flow with a cookie drops exactly one flow, and one flow carrying it |
| FlowStore.Exist | src/onosAdaptor.py:69-74 | true exactly when table `t` holds a flow with the cookie; a missing table holds none |
| FlowStore.FirstWithCookie | src/onosAdaptor.py:86-88 | the flow found carries the cookie and is in the list; none exactly when no flow carries it |
| FlowStore.FindInTables | src/onosAdaptor.py:85-89 | the flow found carries the cookie and is in one of the tables; none exactly when no table holds it |
| FlowStore.GetFlow | src/onosAdaptor.py:84-89 | the flow found carries the cookie and is stored; none exactly when no stored flow carries it |
| FlowStore.AnyInstrIn | src/onosAdaptor.py:96-98 | true exactly when some flow of the list has the instruction with that value |
| FlowStore.AnyInstrInTables | src/onosAdaptor.py:95-99 | true exactly when some flow of the tables has the instruction with that value |
| FlowStore.AttachedMeter | src/onosAdaptor.py:94-99 | true exactly when some stored flow names the meter |
| FlowStore.AttachedGroup | src/onosAdaptor.py:101-106 | true exactly when some stored flow names the group |
| FlowStore.InsertByPriority | src/onosAdaptor.py:117 | inserting into a list in descending priority keeps it so and adds exactly the flow |
| FlowStore.SortByPriority | src/onosAdaptor.py:117 | the result is in descending priority and a permutation of the table |
| FlowStore.WithPriority | src/onosAdaptor.py:117 | the flows of one priority, in list order; its members are stated by `WithPriorityMembers` |
| FlowStore.WithPriorityMembers | src/onosAdaptor.py:117 | a flow is picked exactly when it is in the list and has the priority |
| FlowStore.InsertKeepsTies | src/onosAdaptor.py:117 | inserting a flow into a list in descending priority puts it ahead of the flows of its own priority and leaves every other priority's flows in order |
| FlowStore.SortByPriorityStable | src/onosAdaptor.py:117 | the sort is stable, as Python's `sorted(..., reverse = True)` is: for every priority, its flows keep their table order |
| FlowStore.SelectPort | src/onosAdaptor.py:117-131 | exactly the flows that match the port for the direction: the in-port upstream, a listed group or the output port downstream |
| FlowStore.PortFlowsFrom | src/onosAdaptor.py:112-131 | exactly the matching flows of the tables from `t` down to 0 |
| FlowStore.MaxOf | src/onosAdaptor.py:110 | the largest table id |
| FlowStore.PortMatchedFlows | src/onosAdaptor.py:108-133 | the `ValueError` of `max` on an empty table exactly downstream with no table; otherwise exactly the matching flows of table 0 upstream, of every table downstream |
| FlowStore.ScanBackward | src/onosAdaptor.py:135-214 | at most one flow, a candidate that links back to the seed; none exactly when no candidate does |
| FlowStore.FilterCandidates | src/onosAdaptor.py:135-214 | exactly the candidates that pass the filters, in order |
| FlowStore.ScanForward | src/onosAdaptor.py:135-214 | every candidate that passes the filters when the seed only pops; otherwise at most one that the seed links forward to |
| FlowStore.MatchedFlows | src/onosAdaptor.py:135-214 | only flows of table `t` that pass the filters; for a lower table the result is `ScanBackward`'s and for a higher one `ScanForward`'s, whose contracts state that nothing that qualifies is missed; none for the seed's own table, none for a higher table the seed does not go to |
| FlowStore.FlowTable.constructor | src/onosAdaptor.py:55-59 | no tables |
| FlowStore.FlowTable.Append | src/onosAdaptor.py:61-67 | the flow is filed at the end of its table, which is created on first use and ordered after the existing ones; the cookie then exists there |
| FlowStore.FlowTable.Delete | src/onosAdaptor.py:76-82 | found exactly when the cookie exists in the table, and then exactly its first flow is removed; otherwise nothing changes |
| FlowDecode.XorPresent | src/onosAdaptor.py:1024-1025 | the OFPVID_PRESENT bit is flipped and no other bit changes |
| FlowDecode.XorPresentInvolution | src/onosAdaptor.py:1025 | flipping OFPVID_PRESENT twice gives the value back |
| FlowDecode.VidRoundTrip | src/onosAdaptor.py:1024-1025 | a VLAN id encoded with OFPVID_PRESENT passes the test and decodes back unchanged |
| FlowDecode.LastInPort | src/onosAdaptor.py:1018-1019 | none exactly when no in-port field is present |
| FlowDecode.LastVlanRaw | src/onosAdaptor.py:1020-1025 | none exactly when no VLAN id field is present |
| FlowDecode.MatchFoldSpec | src/onosAdaptor.py:1017-1037 | reading the match fails exactly when one VLAN id lacks OFPVID_PRESENT; otherwise the in-port and VLAN id are those of the last such field |
| FlowDecode.GetFlowParameters | src/onosAdaptor.py:1006-1075 | the loops over match fields, instructions and actions compute the decoding |
| FlowDecode.ApplyActionList | src/onosAdaptor.py:1044-1063 | the inner action loop computes what the APPLY_ACTIONS list writes |
| FlowDecode.UpdateWith | src/onosAdaptor.py:1064 | `update` puts every key of the other dictionary in order |
| FlowDecode.DecodeRejects | src/onosAdaptor.py:1017-1040 | the FLOW_MOD is rejected exactly when a VLAN id lacks OFPVID_PRESENT or the in-port or VLAN id is missing |
| FlowDecode.DecodeFields | src/onosAdaptor.py:1010-1037 | a decoded flow keeps cookie, table and priority, takes the last in-port and the last VLAN id with OFPVID_PRESENT cleared, which is below 4096 exactly when the raw field is below 8192, and is not yet classified |
| FlowDecode.LastGoto | src/onosAdaptor.py:1065-1067 | none exactly when no GOTO_TABLE instruction is present |
| FlowDecode.LastMeter | src/onosAdaptor.py:1068-1070 | none exactly when no METER instruction is present |
| FlowDecode.AppliedKeys | src/onosAdaptor.py:1044-1063 | an APPLY_ACTIONS list never writes `gotoTable` or `meterId` |
| FlowDecode.DecodeGotoMeter | src/onosAdaptor.py:1065-1070 | `gotoTable` and `meterId` of a decoded flow come from the last such instruction |
| FlowDecode.PushThenSet | src/onosAdaptor.py:1050-1059 | PUSH_VLAN followed by SET_FIELD writes the pushed VLAN id under `pushVlan` and nothing else |
| FlowDecode.SetAndPop | src/onosAdaptor.py:1047-1059 | a lone SET_FIELD writes `setVlan`; POP_VLAN records the matched VLAN id under `popVlan` |
| Validation.PortNoExists | src/onosAdaptor.py:977-992 | true exactly when the port is announced |
| Validation.CheckFlows | src/onosAdaptor.py:1077-1145 | accepted exactly when the checks pass, the flow then carrying its direction and service type; a table past the switch's, an unknown upstream in-port or an unknown group is refused |
| Validation.AcceptedClassification | src/onosAdaptor.py:1087-1126 | an accepted flow is downstream exactly when it enters on the NNI port; multicast exactly with a group, VoIP exactly when SIP, unicast exactly when it outputs without a group and is not SIP |
| MetersGroups.FindMeter | src/onosAdaptor.py:314-318 | the meter found has the id and is stored; none is found exactly when no stored meter has the id |
| MetersGroups.RemoveMeter | src/onosAdaptor.py:309-312 | the meters left are exactly the stored ones with another id |
| MetersGroups.DropBands | src/onosAdaptor.py:327-329 | only the DROP bands take part, all of them |
| MetersGroups.MinRateExtreme | src/onosAdaptor.py:330-339 | the committed rate is at most every DROP rate and is one of them |
| MetersGroups.MaxRateExtreme | src/onosAdaptor.py:331-336 | the peak rate is at least every DROP rate and is one of them |
| MetersGroups.MaxBurstExtreme | src/onosAdaptor.py:341-342 | the peak burst size is at least every DROP burst size and is one of them |
| MetersGroups.GetMeterIdBandwidth | src/onosAdaptor.py:320-347 | the one-pass dictionary update gives no result for an unknown meter, the KeyError for a meter without a DROP band, and otherwise the minimum DROP rate, the maximum DROP rate and the maximum DROP burst |
| MetersGroups.BandStep | src/onosAdaptor.py:328-342 | one band keeps the running cir/pir/pbs equal to the minimum, maximum and maximum burst of the DROP bands seen, with pir unset until a second band |
| MetersGroups.FirstFailure | src/onosAdaptor.py:1352-1355 | the meter that stops the combination is one without a bandwidth |
| MetersGroups.FirstFailureNone | src/onosAdaptor.py:1352-1355 | nothing stops the combination exactly when every meter has a bandwidth |
| MetersGroups.KnownBandwidths | src/onosAdaptor.py:1353 | one bandwidth per meter id, in order, each the meter's own |
| MetersGroups.MinAllIsMinimum | src/onosAdaptor.py:1357-1367 | the combined bandwidth is below every meter's in each component and each component is one meter's value |
| MetersGroups.MeterIdsToBandwidth | src/onosAdaptor.py:1349-1369 | an empty list or an unknown meter gives `{}`, a meter without a DROP band raises, otherwise the result is the componentwise minimum |
| MetersGroups.FindGroup | src/onosAdaptor.py:260-264 | the group found has the id and is stored; none is found exactly when no stored group has the id |
| MetersGroups.GroupExists | src/onosAdaptor.py:266-270 | true exactly when a stored group has the id |
| MetersGroups.RemoveGroup | src/onosAdaptor.py:255-258 | the groups left are exactly the stored ones with another id |
| MetersGroups.GroupPorts | src/onosAdaptor.py:272-280 | a port is listed exactly when some bucket of the group has an OUTPUT action to it |
| MetersGroups.GroupsByPort | src/onosAdaptor.py:282-292 | a group id is listed exactly when a stored group with that id has an OUTPUT action whose port equals the argument |
| MetersGroups.RecordFindsNoGroup | src/onosAdaptor.py:282-292 | called with a port record instead of a port number, the search finds no group |
| MetersGroups.CheckMcGroup | src/onosAdaptor.py:917-928 | accepted exactly when the group is of type ALL and some bucket outputs to an existing port |
| Stats.FindIndex | src/onosAdaptor.py:384-388 | the index found holds the key and no earlier entry does; none is found exactly when no entry holds the key |
| Stats.Scan | src/onosAdaptor.py:385-388 | the search loop finds what `FindIndex` specifies |
| Stats.DeleteKeyed | src/onosAdaptor.py:377-382 | the list, the start times and the outcome after `delete` are those of the specification: the first entry with the key goes and its start time is popped, raising when that time is already gone |
| Stats.KeyCountConcat | src/onosAdaptor.py:377-382 | the entries with a key in two lists add up |
| Stats.RemoveFound | src/onosAdaptor.py:377-382 | `delete` removes exactly one entry with its key and no entry of another key |
| Stats.DeleteUndoesAppend | src/onosAdaptor.py:368-382 | deleting an entry appended under a fresh key restores the list and the start times, without error |
| Stats.AddToBands | src/onosAdaptor.py:464-466 | every bucket or band gains both increments and nothing else changes |
| Stats.AddToBandsLoop | src/onosAdaptor.py:524-526 | the loop over the bands computes `AddToBands` |
| Stats.SumPacketsAdd | src/onosAdaptor.py:464-466 | the packet total of the bands grows by the increment once per band |
| Stats.BandShare | src/onosAdaptor.py:521-522 | the floored share times the number of bands is at most the delta and short of it by less than the number of bands |
| Stats.MeterBandsGain | src/onosAdaptor.py:521-526 | a meter report hands its bands at most its packet delta, and less than one share per band short of it |
| Stats.FlowCountedAdds | src/onosAdaptor.py:397-399 | two flow reports count as one report of the summed deltas with the later lifetime; a zero report changes nothing |
| Stats.FirstMeterIndex | src/onosAdaptor.py:406-409 | the index found holds a METER instruction and no earlier one does; none exactly when no METER instruction is there |
| Stats.UpdatedFlowsTouchesFirst | src/onosAdaptor.py:390-399 | a flow report changes only the first entry with its cookie, which gains both deltas and the lifetime `timestamp - start` |
| Stats.CookiesOf | src/onosAdaptor.py:378-379 | the cookies of the entries, in order |
| Stats.FlowStatsList.constructor | src/onosAdaptor.py:356-366 | an empty list with no start times |
| Stats.FlowStatsList.Append | src/onosAdaptor.py:368-375 | the entry is appended and its cookie is stamped with the current time |
| Stats.FlowStatsList.Delete | src/onosAdaptor.py:377-382 | the first entry with the cookie is removed and its start time popped, with the KeyError of a missing time |
| Stats.FlowStatsList.Get | src/onosAdaptor.py:384-388 | the first entry with the cookie, or none when no entry has it |
| Stats.FlowStatsList.UpdateStatistics | src/onosAdaptor.py:390-399 | a missing start time raises before anything changes; otherwise the entries are updated as `UpdatedFlows` says and the start times are kept |
| Stats.FlowStatsList.AssociatedMeter | src/onosAdaptor.py:401-409 | the meter of the first METER instruction of the first entry with the cookie, or none |
| Stats.UpdatedMetersTouchesFirst | src/onosAdaptor.py:510-526 | a meter report changes only the first entry with its id: its input counters gain the deltas, its bands share the delta by floor division, and a meter without bands raises ZeroDivisionError |
| Stats.MeterStatsList.constructor | src/onosAdaptor.py:474-485 | an empty list with no start times |
| Stats.MeterStatsList.Append | src/onosAdaptor.py:487-494 | the entry is appended and its meter id is stamped with the current time |
| Stats.MeterStatsList.Delete | src/onosAdaptor.py:497-502 | the first entry with the meter id is removed and its start time popped |
| Stats.MeterStatsList.UpdateStatistics | src/onosAdaptor.py:510-526 | the entries and the outcome are those of `UpdatedMeters` and `MeterUpdateOutcome`; the start times are kept |
| Stats.UpdatedGroupsTouchesFirst | src/onosAdaptor.py:453-466 | a group report changes only the first entry with its id, and every bucket gains the full packet delta |
| Stats.GroupStatsList.constructor | src/onosAdaptor.py:417-428 | an empty list with no start times |
| Stats.GroupStatsList.Append | src/onosAdaptor.py:430-437 | the entry is appended and its group id is stamped with the current time |
| Stats.GroupStatsList.Delete | src/onosAdaptor.py:440-445 | the first entry with the group id is removed and its start time popped |
| Stats.GroupStatsList.UpdateStatistics | src/onosAdaptor.py:453-466 | the entries and the outcome are those of `UpdatedGroups` and `UpdateOutcome`; the start times are kept |
| Stats.GroupCountedAdds | src/onosAdaptor.py:460-466 | two group reports count as one report of the summed deltas, buckets included |
| Switch.RoleReply | src/onosAdaptor.py:822-846 | the reply carries the role kept; a NOCHANGE before any role answers and keeps EQUAL with generation id 0, a later NOCHANGE keeps the stored role, any other request is stored and echoed |
| Switch.LastChange | src/onosAdaptor.py:839-840 | the request found names a role and every later one is NOCHANGE; none exactly when every request is NOCHANGE |
| Switch.RoleAfterLastChange | src/onosAdaptor.py:822-846 | over a sequence of requests the kept role is the last role named, or EQUAL when only NOCHANGE was asked |
| Switch.ZeroCounters | src/onosAdaptor.py:853-856 | one zeroed counter pair per band |
| Switch.MeterGuardKeepsReferences | src/onosAdaptor.py:864-870 | the METER_MOD delete guard never removes a meter that a stored flow names |
| Switch.GroupGuardKeepsReferences | src/onosAdaptor.py:878-886 | the GROUP_MOD delete guard never removes a group that a stored flow names |
| Switch.RejectedAddLeavesStats | src/onosAdaptor.py:676-709 | a rejected add of a fresh cookie leaves the flow statistics and start times as they were, without error |
| Switch.RemoveFirstCookieSubset | src/onosAdaptor.py:1336-1343 | deleting a flow keeps only flows that were stored |
| Switch.Adaptor.constructor | src/onosAdaptor.py:531-587 | every list and table starts empty except the port list, which holds the NNI port 0x14 announced before the first message is read |
| Switch.Adaptor.FlowMod | src/onosAdaptor.py:671-719 | a delete of a stored flow is queued; a delete of an unknown one drops its statistics; an add is stamped, and then an undecodable flow stops, a rejected one has its statistics dropped, and an accepted one is classified, appended to its table, kept as a FLOW_MOD and queued |
| Switch.Adaptor.FlowModDelete | src/onosAdaptor.py:684-697 | the delete branch: queued when the flow is stored, statistics dropped otherwise |
| Switch.Adaptor.FlowModInstall | src/onosAdaptor.py:676-719 | the add branch, with the three outcomes of decoding and admission |
| Switch.Adaptor.Admit | src/onosAdaptor.py:705-717 | a flow `check_flows` refuses has its statistics dropped and nothing else changes; an accepted one is appended, kept and queued |
| Switch.Adaptor.DeleteFlow | src/onosAdaptor.py:1336-1343 | an unknown cookie changes nothing; otherwise the first flow with it leaves its table and its statistics entry is dropped |
| Switch.Adaptor.MeterMod | src/onosAdaptor.py:848-872 | an add keeps the meter with zeroed band counters; a delete removes meter and statistics only when no stored flow names the meter |
| Switch.Adaptor.GroupMod | src/onosAdaptor.py:874-915 | a delete is guarded like a meter delete; an add that `check_mcGroup` accepts keeps the group with zeroed bucket counters; anything else changes nothing |
| Switch.Adaptor.PortStatus | src/onosAdaptor.py:930-953 | MODIFY for a port already announced, ADD otherwise; the port is then appended |
| Switch.Adaptor.UpdateFlowStatistics | src/onosAdaptor.py:1387-1392 | the meter is looked up before the flow's counters are updated, and only a flow with a meter updates that meter |
| Reconcile.Backward | src/onosAdaptor.py:1177-1241 | the backward walk fails whenever the table below does not offer exactly one flow linking to the current one |
| Reconcile.BackChain | src/onosAdaptor.py:1178-1183 | a chain found has one flow per table below the flow |
| Reconcile.BackChainLinks | src/onosAdaptor.py:1178-1183 | a chain found is a stored flow per table below, in table order, each the only flow of its table linking to the next one and the last the only one linking to the flow |
| Reconcile.BackwardIsChain | src/onosAdaptor.py:1177-1241 | the backward walk succeeds exactly when the chain exists, and then applies the chain's steps from the nearest flow down to table 0 |
| Reconcile.BackStepLists | src/onosAdaptor.py:1191-1199 | one step puts the flow id in front, the priority at the back, and a positive matched VLAN in front |
| Reconcile.ChainApplyIds | src/onosAdaptor.py:1191-1194 | along a chain the flow ids gain the chain's ids, table 0 first |
| Reconcile.ChainApplyPriorities | src/onosAdaptor.py:1196-1199 | along a chain the priorities gain the chain's priorities in walk order |
| Reconcile.ChainApplyVlans | src/onosAdaptor.py:1232-1236 | along a chain the positive matched VLANs go in front in table order |
| Reconcile.BackwardFollowsChain | src/onosAdaptor.py:1177-1241 | success exactly when the chain exists; then ids in table order, priorities in walk order and VLANs in table order are put around the record's own |
| Reconcile.BackwardBalanced | src/onosAdaptor.py:1191-1199 | the backward walk adds one flow id per table below and as many priorities as ids |
| Reconcile.Bound | src/onosAdaptor.py:1324-1330 | the bound is at least every table id in the store |
| Reconcile.ForwardTableLoop | src/onosAdaptor.py:1243-1334 | the loops of `forwardTable` compute the recursive specification `ForwardTable` |
| Reconcile.InstructionLoop | src/onosAdaptor.py:1304-1325 | the loop over the instruction dictionary, in its order, computes `InstrPass` |
| Reconcile.ForwardEachLoop | src/onosAdaptor.py:1330-1332 | the loop over the matched flows of the next table threads one record through them, as `ForwardEach` says |
| Reconcile.InstrPassKeeps | src/onosAdaptor.py:1304-1325 | the instruction loop never changes the direction, the ids, the priorities or whether the record is VoIP, and never un-ends the record |
| Reconcile.InstrPassEnds | src/onosAdaptor.py:1313-1323 | the record ends exactly on an OUTPUT, or on a group of a downstream record that is not VoIP |
| Reconcile.InstrPassGroup | src/onosAdaptor.py:1309-1315 | a group that ends the record makes it multicast with that group; without a group the group and service type are kept |
| Reconcile.InstrPassOutput | src/onosAdaptor.py:1316-1323 | an OUTPUT writes the NNI port of an upstream record and the ONU port of a downstream one, and a service type is always set |
| Reconcile.InstrPassNext | src/onosAdaptor.py:1324-1325 | the next table is the gotoTable value, when there is one |
| Reconcile.ForwardBalanced | src/onosAdaptor.py:1243-1334 | every forward walk adds as many priorities as flow ids and keeps the record's ids, followed by the flow's own, in front |
| Reconcile.ForwardEachBalanced | src/onosAdaptor.py:1330-1332 | the walks of the matched flows keep ids and priorities balanced |
| Reconcile.ForwardEnds | src/onosAdaptor.py:1304-1333 | an OUTPUT, or a group ending the record, emits the record once with the port or group written in; a flow with neither and no further table emits nothing |
| Reconcile.NoDirectionStops | src/onosAdaptor.py:1265-1273 | a flow without a direction emits nothing after writing its id and priority |
| Reconcile.Copies | src/onosAdaptor.py:1327-1332 | the emitted list is that many references to the one final record |
| Reconcile.SeedIds | src/onosAdaptor.py:1156-1159 | the record the forward walk starts from exists exactly when the backward chain does, and carries its ids, one per table below |
| Reconcile.MatchFlowsUnknown | src/onosAdaptor.py:1151-1154 | `matchFlows` fails exactly for a cookie no stored flow has |
| Reconcile.MatchFlowsShape | src/onosAdaptor.py:1147-1163 | every record `matchFlows` returns is the same record, with as many ids as priorities |
| Reconcile.MatchFlowsIds | src/onosAdaptor.py:1147-1163 | the ids of a record are the backward chain's, table 0 first, then the cookie itself |
| Reconcile.Prepend | src/onosAdaptor.py:1173 | extending by a failed result fails the whole, otherwise it concatenates |
| Reconcile.PrependJoin | src/onosAdaptor.py:1172-1173 | successive extensions concatenate |
| Reconcile.MatchPortsAsWritten | src/onosAdaptor.py:1165-1175 | `matchPorts` as written, handing the port record to the group search |
| Reconcile.MatchPorts | src/onosAdaptor.py:1165-1175 | `matchPorts` with the port number handed to the group search |
| Reconcile.ServicesOfLoop | src/onosAdaptor.py:1172-1173 | the loop over the flows of a port extends by each flow's records, as `ServicesOf` says |
| Reconcile.PortServicesLoop | src/onosAdaptor.py:1167-1173 | one port's groups, flows and records, as `PortServices` says |
| Reconcile.MatchPortsLoop | src/onosAdaptor.py:1165-1175 | the loop over the deleted ports computes `PortsServices` |
| Reconcile.AsWrittenMissesGroupFlow | src/onosAdaptor.py:1168 | as written, a downstream flow that reaches a deleted port only through its group is never picked up |
| Reconcile.CorrectedFindsGroupFlow | src/onosAdaptor.py:1168-1170 | with the port number passed, a stored downstream flow whose group outputs to the port is picked up |
| Capabilities.Generate | src/oltDevice.py:81-98 | each OpenFlow capability bit is set exactly when its flag is on, and no other bit is set |
| Capabilities.DeviceCapabilities | src/oltDevice.py:50-56 | the device announces flow, table and group statistics: the word 0x0b |
| Capabilities.GenerateInjective | src/oltDevice.py:81-98 | two flag sets with the same word are the same |
| PortNumbers.OnuToPortNo | src/oltDevice.py:1593-1598 | a port number fits in 32 bits |
| PortNumbers.PortNoToOnu | src/oltDevice.py:1600-1606 | the fields are a 4-bit interface, an 11-bit ONU id and a 16-bit PPTP number |
| PortNumbers.UnpackPack | src/oltDevice.py:1593-1606 | unpacking a packed port number gives each field back modulo its width, and the POTS bit |
| PortNumbers.RoundTrip | src/oltDevice.py:1593-1606 | fields within their widths survive packing and unpacking |
| PortNumbers.PackUnpack | src/oltDevice.py:1593-1606 | every 32-bit port number is the packing of its own fields |
| VlanTags.Reverse | src/oltDevice.py:1737 | the list reversed, element by element |
| VlanTags.ReverseTwice | src/oltDevice.py:1737 | reversing twice restores the list |
| VlanTags.Ordered | src/oltDevice.py:1735-1737 | the list the tags are read from keeps its length |
| VlanTags.InnerIndex | src/oltDevice.py:1739-1742 | the entry found is positive and differs from the first, and every earlier one equals the first or is 0; none when every entry does |
| VlanTags.GetVlanTags | src/oltDevice.py:1731-1755 | the tags are those of `TagsOf`, and the caller's list is left reversed for a multi-VLAN upstream service |
| VlanTags.TagCases | src/oltDevice.py:1731-1755 | no VLAN gives no tags; one VLAN is the C tag alone; otherwise the S tag is the first entry and the C tag the first later positive entry that differs from it, or the C tag alone is the first entry |
| VlanTags.SecondPassRestores | src/oltDevice.py:1735-1737 | an upstream record split twice is reversed back and reads its tags as a downstream one would |
| Allocators.RemoveValue | src/oltDevice.py:1640 | `list.remove`: one occurrence of a present value goes and the rest is kept; an absent value changes nothing |
| Allocators.LowestFree | src/oltDevice.py:1614-1619 | the id found lies in the range, is not held, and every lower id of the range is held; none only when the whole range is held |
| Allocators.FirstFree | src/oltDevice.py:1614-1619 | the scan over the range finds `LowestFree` |
| Allocators.FirstGap | src/oltDevice.py:1502-1510 | the counter never goes below its start |
| Allocators.GapScan | src/oltDevice.py:1502-1510 | the scan over the sorted ids computes `FirstGap` |
| Allocators.FirstGapUnused | src/oltDevice.py:1503-1510 | on an ascending list the counter stops on a value the list does not hold |
| Allocators.FirstGapLowest | src/oltDevice.py:1503-1510 | on an ascending list without repeats whose values are all at least the start, the result is the least value from the start up that the list lacks |
| Allocators.SortDistinct | src/oltDevice.py:1503 | sorting a list without repeats leaves none |
| Allocators.GemportPools.constructor | src/oltDevice.py:44-68 | no interface holds a GEM port; the multicast range starts at 4094 |
| Allocators.GemportPools.Allocate | src/oltDevice.py:1608-1631 | an interface seen for the first time gets the start of the range; otherwise the lowest free id of the range is appended, or nothing changes when the range is full |
| Allocators.GemportPools.GetGemportUnicast | src/oltDevice.py:1608-1619 | allocation on the interface's pool over `gemport_id_start` up to `alloc_id_end` |
| Allocators.GemportPools.GetGemportMulticast | src/oltDevice.py:1621-1631 | allocation on the pool of interface 0 from 4094 up to `gemport_id_end` |
| Allocators.GemportPools.FreeGemport | src/oltDevice.py:1633-1640 | a held id is removed from its interface's list; an unknown interface or id changes nothing |
| Allocators.AppendFresh | src/oltDevice.py:1616 | appending an id not held keeps the list free of repeats |
| Allocators.RemoveKeepsDistinct | src/oltDevice.py:1640 | freeing keeps the list free of repeats and the id is then no longer held |
| Allocators.FreeUndoesAllocate | src/oltDevice.py:1614-1640 | freeing the id just allocated restores the interface's list |
| Allocators.SerialIndex | src/oltDevice.py:1499-1500 | the entry found has the serial and no earlier one does; none when no entry has it |
| Allocators.IdsOn | src/oltDevice.py:1503-1505 | exactly the ONU ids in use on the interface |
| Allocators.OnuSerial | src/oltDevice.py:1579-1584 | a non-empty serial belongs to an entry of that interface and ONU id |
| Allocators.OnuIndex | src/oltDevice.py:1565-1567 | the entry found is of the ONU and no earlier one is; none when no entry is |
| Allocators.Subscribers.constructor | src/oltDevice.py:44-68 | the extension range and the table given |
| Allocators.Subscribers.GetOnuId | src/oltDevice.py:1492-1518 | a known serial keeps its id and the table is unchanged; a new serial is appended with the id of the scan over its interface's ids |
| Allocators.Subscribers.GetOnuSn | src/oltDevice.py:1579-1584 | the serial of the first entry of the ONU, or "" |
| Allocators.Subscribers.GetConfiguredExtensions | src/oltDevice.py:1520-1529 | every stored extension, in table order and then line order |
| Allocators.Subscribers.GenerateVoipExtension | src/oltDevice.py:1531-1558 | the result and the new table are those of `Generated`: the counter over the sorted extensions, refused past the end of the range, stored under the ONU's serial otherwise |
| Allocators.Subscribers.GetVoipExtensionAsWritten | src/oltDevice.py:1561-1577 | a line found under `str(pots_id)` is returned unchanged; otherwise a new extension is generated |
| Allocators.Subscribers.GetVoipExtension | src/oltDevice.py:1561-1577 | the same with the line found under either spelling of its key |
| Allocators.FindOnu | src/oltDevice.py:1565-1567 | the loop finds the first entry of the ONU, as `OnuIndex` says |
| Allocators.NewIdFresh | src/oltDevice.py:1501-1518 | with positive ids unique per interface, a new serial gets the least positive id its interface does not use |
| Allocators.SortedSame | src/oltDevice.py:1503 | the scan over the sorted list settles on the least value from the start up that the list lacks |
| Allocators.IdsOnDistinct | src/oltDevice.py:1503-1505 | ids unique per interface give a list without repeats |
| Allocators.NewOnuKeepsValid | src/oltDevice.py:1512-1513 | appending a new serial with an unused positive id keeps serials distinct and ids unique per interface |
| Allocators.GeneratedLowest | src/oltDevice.py:1540-1546 | with stored extensions distinct and not below the start, the new extension lies in the range, is not stored, and every lower one from the start is |
| Allocators.AsWrittenReassigns | src/oltDevice.py:1548-1575 | as written, a line stored under the integer key is not found under its string spelling, so the same UNI is given a second extension |
| Allocators.GeneratedIsStored | src/oltDevice.py:1548-1553 | with the key looked up in either spelling, a UNI that was given an extension finds it again |
| Allocators.OnuSerialIsFirst | src/oltDevice.py:1579-1584 | the serial returned is that of the first entry of the ONU, or "" when there is none |
| Services.Select | src/oltServices.py:73-127 | never longer than the list; `SelectMembers` and `SelectPartition` state its members |
| Services.SelectMembers | src/oltServices.py:73-127 | a direction getter holds exactly the entries of that direction |
| Services.SelectLoop | src/oltServices.py:79-81 | the getters' loop appends every entry of the direction, in order, as `Select` says |
| Services.SelectPartition | src/oltServices.py:73-127 | the downstream, upstream and bidirectional selections together are the list, counted with repetitions |
| Services.Remove | src/oltServices.py:44-47 | the intended removal of schedulers, and of queues at lines 62-65, never grows the list |
| Services.RemoveSelect | src/oltServices.py:44-47 | after removing a direction none of it is left and every other direction's entries stay in order; BIDIRECTIONAL removes all |
| Services.RemoveMembers | src/oltServices.py:44-47 | the removal keeps exactly the entries it is not meant to drop |
| Services.RemoveBidirectional | src/oltServices.py:46 | the BIDIRECTIONAL default empties the list |
| Services.RemoveFirst | src/oltServices.py:47 | `list.remove` drops one entry of a present value and nothing of an absent one |
| Services.SweepAsWritten | src/oltServices.py:44-47 | the loop as written; `SweepSkipsSecond` and `SweepBidirectionalKeepsUpstream` show the entries it misses |
| Services.SweepSkipsSecond | src/oltServices.py:44-47 | as written, removing downstream schedulers from two of them leaves the second, where the intended removal leaves none |
| Services.SweepBidirectionalKeepsUpstream | src/oltServices.py:62-65 | as written, the BIDIRECTIONAL default on a downstream and an upstream queue leaves the upstream one |
| Services.RemoveNone | src/oltServices.py:44-47 | a list with nothing of the direction is its own removal |
| Services.RemoveCons | src/oltServices.py:44-47 | the head is dropped exactly when it is of the direction, then the rest is removed |
| Services.RemoveAppend | src/oltServices.py:44-47 | the intended removal distributes over concatenation |
| Services.RemoveFirstAt | src/oltServices.py:47 | `list.remove` of an entry with no equal entry before it drops exactly that position |
| Services.SweepNone | src/oltServices.py:44-47 | with nothing of the direction left ahead, the loop as written changes nothing |
| Services.RemoveDropsOne | src/oltServices.py:44-47 | a list whose only entry of the direction is `x` loses exactly `x` |
| Services.RemoveOnly | src/oltServices.py:44-47 | removing the only entry of the direction leaves the rest of the list in order |
| Services.RemoveFirstOnly | src/oltServices.py:47 | `list.remove` of the first entry of the direction drops exactly its position |
| Services.SweepPastOnly | src/oltServices.py:44-47 | past the dropped entry, with nothing more of the direction, the loop as written ends |
| Services.SweepOnly | src/oltServices.py:44-47 | the loop as written, reaching the only entry of the direction, drops it and nothing else |
| Services.SweepAgreesFrom | src/oltServices.py:44-47 | from any position with nothing of the direction before it, the loop as written ends in the intended removal when at most one entry is of the direction |
| Services.SweepAgreesOnSingle | src/oltServices.py:44-47 | the loop as written does what is intended whenever at most one entry is of the direction removed |
| Services.Decide | src/oltServices.py:165-169 | no verdict only when the common prefix is equal |
| Services.DecideAt | src/oltServices.py:165-169 | the verdict is whether the new priority is greater at the first position where the lists differ |
| Services.DecideNone | src/oltServices.py:165-169 | an equal common prefix gives no verdict |
| Services.DecideBoth | src/oltServices.py:177-181 | the BIDIRECTIONAL loop; `DecideBothAt` and `DecideBothNone` state where it decides |
| Services.DecideBothAt | src/oltServices.py:177-181 | the BIDIRECTIONAL loop decides at the first position where the new priority beats, or loses to, both lists |
| Services.DecideBothNone | src/oltServices.py:177-181 | without such a position it decides nothing |
| Services.Compare | src/oltServices.py:163-183 | `compare_priorities` as written; `ComparePerDirection` and `EqualPrefixLoses` state its verdict |
| Services.ComparePerDirection | src/oltServices.py:163-183 | for a downstream or upstream comparison the verdict is the first difference with that direction's list, the fall-through into the BIDIRECTIONAL loop notwithstanding |
| Services.EqualPrefixLoses | src/oltServices.py:163-183 | an equal common prefix, including an empty list, never wins |
| Services.DecideLoop | src/oltServices.py:163-169 | the comparison loop computes `Decide` |
| Services.DecideBothLoop | src/oltServices.py:177-181 | the BIDIRECTIONAL loop computes `DecideBoth` |
| Services.PlanTags | src/oltDevice.py:740-757 | the tag choice of the service generators; `PlanCommands` and `PlannedTagsSymmetric` state it |
| Services.PlanCommands | src/oltDevice.py:740-757 | a service tag in 1..4095 makes a double-tagged service whose downstream action pops the outer tag and whose upstream action pushes it; otherwise no command |
| Services.PlannedTagsSymmetric | src/oltServices.py:344-351 | the two halves of a generated service read back the same tags exactly when there is no service tag, it is 0, or it is below 4096 with a positive customer tag |
| Services.CTagsDoubleTagged | src/oltServices.py:345-348 | a double-tagged downstream classifier reads back the inner tag as C tag and the outer one as S tag |
| Services.UnicastService.constructor | src/oltServices.py:12-28 | empty scheduler and queue lists, no GEM port, default classifiers and actions, zero flow ids, no priorities, no VoIP server or extension |
| Services.UnicastService.AddTrafficSched | src/oltServices.py:30-42 | one scheduler with the arguments and the service's profile id is appended |
| Services.UnicastService.RemoveTrafficSchedulers | src/oltServices.py:44-47 | as intended (see ## Findings, removal while iterating): the schedulers become the intended removal of the direction, which `SweepAgreesOnSingle` proves equal to the code as written whenever at most one scheduler is of that direction |
| Services.UnicastService.AddTrafficQueue | src/oltServices.py:49-60 | one queue is appended; a given GEM port becomes the service's, otherwise it is kept |
| Services.UnicastService.RemoveTrafficQueues | src/oltServices.py:62-65 | as intended (see ## Findings, removal while iterating): the queues become the intended removal of the direction, equal to the code as written whenever at most one queue is of that direction |
| Services.UnicastService.GetTrafficSchedulers | src/oltServices.py:67-71 | none exactly when there is no scheduler; otherwise all of them under the service's header |
| Services.UnicastService.GetTrafficQueues | src/oltServices.py:97-101 | none exactly when there is no queue; otherwise all of them with the profile id |
| Services.UnicastService.GetTrafficSchedulersIn | src/oltServices.py:73-95 | the schedulers of the direction, in order, under the service's header |
| Services.UnicastService.GetTrafficQueuesIn | src/oltServices.py:103-127 | the queues of the direction, in order, under the service's header and profile id |
| Services.UnicastService.UpdateServicePriorities | src/oltServices.py:154-161 | only the named direction's list is set, or both for BIDIRECTIONAL |
| Services.UnicastService.ComparePriorities | src/oltServices.py:163-183 | the loops compute `Compare`, the fall-through included |
| Services.UnicastService.GenerateDownstreamClassifier | src/oltServices.py:185-197 | the downstream classifier holds the given tags and tag type |
| Services.UnicastService.GenerateUpstreamClassifier | src/oltServices.py:199-211 | the upstream classifier holds the given tags and tag type |
| Services.UnicastService.GenerateDownstreamAction | src/oltServices.py:213-237 | the downstream action holds the given fields and one command flag per command named |
| Services.UnicastService.GenerateUpstreamAction | src/oltServices.py:239-263 | the upstream action holds the given fields and one command flag per command named |
| Services.UnicastService.GenerateDownstreamFlow | src/oltServices.py:266-300 | none without downstream priorities; otherwise the flow at the first priority, symmetric to the upstream flow exactly when the tags agree, and the flow id is recorded |
| Services.UnicastService.CleanDownstreamFlow | src/oltServices.py:302-303 | the downstream flow id is 0 |
| Services.UnicastService.GenerateUpstreamFlow | src/oltServices.py:305-339 | the mirror image for the upstream direction |
| Services.UnicastService.CleanUpstreamFlow | src/oltServices.py:341-342 | the upstream flow id is 0 |
| Services.UnicastService.AddVoipServer | src/oltServices.py:592-593 | the server is recorded |
| Services.UnicastService.AddExtension | src/oltServices.py:595-596 | the extension is recorded, after which `extension_exists` holds for its number and password |
| Services.UnicastService.ExtensionExists | src/oltServices.py:598-605 | true only with an extension recorded, whose number and password are those asked |
| Services.MemberIndex | src/oltServices.py:490 | the member found is on the interface; none when no member is |
| Services.WithEntryAdds | src/oltServices.py:487-496 | `add_member` keeps one member per interface and each subscriber once, the interface then has a member holding the entry, and the list grows only for a new interface |
| Services.MemberIndexUnique | src/oltServices.py:490 | with one member per interface the lookup finds that member |
| Services.GroupHas | src/oltServices.py:450-454 | true exactly when a group member is on the interface |
| Services.GroupAdd | src/oltServices.py:415-419 | `add_member` as intended; `GroupAddDistinct` states that it lists each interface once and always the added one |
| Services.GroupAddAsWritten | src/oltServices.py:450-454 | `add_member` as written; `SecondInterfaceRaises` shows it raising on a second interface, `GroupAddAgreesOnEmpty` that it agrees on the empty group |
| Services.SecondInterfaceRaises | src/oltServices.py:450-454 | as written, adding a second interface to a non-empty group raises, where the intended code appends it |
| Services.GroupAddAgreesOnEmpty | src/oltServices.py:415-419 | on the empty group the written and intended code agree |
| Services.GroupAddDistinct | src/oltServices.py:415-419 | the intended group never lists an interface twice and always lists the added one |
| Services.MemberSchedulers | src/oltServices.py:67-71 | a member's schedulers are none exactly when it has none |
| Services.MemberQueues | src/oltServices.py:97-101 | a member's queues are none exactly when it has none |
| Services.MembersSchedulers | src/oltServices.py:521-527 | one entry per member |
| Services.MembersQueues | src/oltServices.py:534-540 | one entry per member |
| Services.ResourcesIgnoreFlowIds | src/oltServices.py:394-399 | recording a flow id changes no member's schedulers or queues |
| Services.SchedulersIgnoreQueues | src/oltServices.py:516-518 | dropping the queues leaves every member's schedulers |
| Services.ShapeKeepsMembers | src/oltServices.py:501-565 | updating the members' schedulers, queues, classifiers or flow ids keeps one member per interface and the group consistent with them |
| Services.MulticastService.constructor | src/oltServices.py:466-471 | no members, an empty group, a default action and no priorities |
| Services.MulticastService.UpdateServicePriorities | src/oltServices.py:473-474 | the priorities are replaced |
| Services.MulticastService.ComparePriorities | src/oltServices.py:476-483 | true exactly when the first difference over the common prefix favours the new list |
| Services.MulticastService.AddMember | src/oltServices.py:487-496 | as intended (see ## Findings, `intf_id`): a known interface records the subscriber once; a new one joins the group and gets a member |
| Services.MulticastService.AddTrafficSched | src/oltServices.py:501-504 | every member gains one downstream scheduler with the arguments |
| Services.MulticastService.RemoveTrafficSchedulers | src/oltServices.py:506-508 | as intended (see ## Findings, removal while iterating): every member's schedulers are dropped |
| Services.MulticastService.AddTrafficQueue | src/oltServices.py:510-513 | every member gains one downstream queue on the group's GEM port, which becomes its own |
| Services.MulticastService.RemoveTrafficQueues | src/oltServices.py:516-518 | as intended (see ## Findings, removal while iterating): every member's queues are dropped |
| Services.MulticastService.AllTrafficSchedulers | src/oltServices.py:521-527 | one entry per member, in member order |
| Services.MulticastService.AllTrafficQueues | src/oltServices.py:534-540 | one entry per member, in member order |
| Services.MulticastService.TrafficSchedulersOf | src/oltServices.py:529-532 | none for an interface without a member; otherwise that member's |
| Services.MulticastService.TrafficQueuesOf | src/oltServices.py:542-545 | none for an interface without a member; otherwise that member's |
| Services.MulticastService.GenerateClassifiers | src/oltServices.py:547-551 | every member gets the same classifier and nothing else changes |
| Services.MulticastService.GenerateAction | src/oltServices.py:424-448 | the group action holds the given fields and command flags |
| Services.MulticastService.GenerateFlows | src/oltServices.py:553-561 | no flow without priorities; otherwise one flow per member in member order and each member records the flow id |
| Services.MulticastService.CleanFlows | src/oltServices.py:563-565 | every member's flow id is 0 |
| Services.MulticastService.GetTagsConfiguration | src/oltServices.py:567-568 | the first member's tags; the IndexError exactly when there is no member |
| Services.MulticastService.GetGroup | src/oltServices.py:456-458 | the group with its action and no members |
| Services.MulticastService.GetGroupMembers | src/oltServices.py:460-462 | the group with its action and its current members |
| Services.MulticastService.RemoveGroupMembers | src/oltServices.py:421-422 | the group is emptied |
| Services.FindMember | src/oltServices.py:490 | the lookup finds what `MemberIndex` specifies |
| Hardware.FirstRefused | src/oltDevice.py:277-326 | the refused position it reports lies within the plan |
| Hardware.FirstRefusedMeans | src/oltDevice.py:277-326 | the refusal found is refused with every call before it accepted; none found exactly when every call is accepted |
| Hardware.FirstRefusedAppend | src/oltDevice.py:1158-1200 | a plan run in two parts stops in the first part at its refusal, otherwise runs the second from where the first ended |
| Hardware.Undos | src/oltDevice.py:286-295 | the removals of a run of calls, one per call, last call first |
| Hardware.Transaction | src/oltDevice.py:277-296 | an install direction with its rollback; `TransactionRollsBack` and `TransactionRemovesCreated` state what it issues and when it succeeds |
| Hardware.Teardown | src/oltDevice.py:352-372 | an uninstall that stops at the first refusal; `TeardownStops` states what it issues and when it succeeds |
| Hardware.TransactionRollsBack | src/oltDevice.py:277-296 | an install direction succeeds exactly when every call is accepted and then issues the plan; a failed one issues the plan up to the refused call and then the removal of each of those calls in reverse order |
| Hardware.MirrorLog | src/oltDevice.py:292-296 | calls followed by their removals: the call at distance `i` from the end undoes the `i`-th |
| Hardware.TransactionRemovesCreated | src/oltDevice.py:277-296 | a failed install removes everything it created |
| Hardware.TeardownStops | src/oltDevice.py:345-411 | an uninstall succeeds exactly when every call is accepted, always issues a prefix of the plan, and a failed one ends at the refused call |
| Hardware.InstallPlan | src/oltDevice.py:275-296 | schedulers, queues, then the flow of one direction; `RemovePlanUndoesInstall` and `InstallCases` state its run |
| Hardware.RemovePlan | src/oltDevice.py:352-372 | the flow, queues, then schedulers of one direction; `RemovePlanUndoesInstall` states that it is the reverse of the install, and `RemoveCases` its run |
| Hardware.RemovePlanUndoesInstall | src/oltDevice.py:265-411 | uninstalling a direction issues exactly the removals of what installing it created, in reverse order, and installing only creates |
| Hardware.InstallCases | src/oltDevice.py:275-296 | the schedulers, queues and flow of one direction, case by case: each refusal removes the refused resource and those before it |
| Hardware.RemoveCases | src/oltDevice.py:358-372 | the flow, queues and schedulers removal of one direction, case by case: each refusal ends the uninstall |
| Hardware.UpstreamQueueRefusalLeaks | src/oltDevice.py:845-850 | as written, a refused upstream queue raises with the schedulers created and never removed, where the intended code removes both |
| Hardware.RefusedQueuesExample | src/oltDevice.py:845-850 | an OLT that refuses every queue and accepts every scheduler shows it |
| Hardware.UpstreamAsWrittenOtherwise | src/oltDevice.py:303-326 | in every other case the code as written is the transaction |
| Hardware.McGroupRefused | src/oltDevice.py:1159-1163 | a refused group is removed again and nothing else is issued |
| Hardware.McSchedRefused | src/oltDevice.py:1166-1171 | a refused scheduler removes only itself; the group and the schedulers before it stay |
| Hardware.McQueueRefused | src/oltDevice.py:1174-1181 | a refused queue removes itself and then every scheduler, but not the queues before it nor the group |
| Hardware.McFlowRefused | src/oltDevice.py:1184-1193 | a refused flow removes itself, every queue and every scheduler, but not the group |
| Hardware.McMemberRefused | src/oltDevice.py:1196-1200 | a refused member update removes the group and nothing else |
| Hardware.McAccepted | src/oltDevice.py:1150-1211 | with every call accepted the install issues the plan and then the OMCI configuration |
| Hardware.McInstall | src/oltDevice.py:1150-1211 | the staged multicast install; `McInstallSucceeds`, `McInstallRemovesOnlyOnFailure` and the `Mc*Refused` lemmas state each stage's rollback |
| Hardware.McInstallSucceeds | src/oltDevice.py:1150-1211 | a multicast install succeeds exactly when the OLT accepts every call of the plan, and then issues the plan and the OMCI configuration |
| Hardware.McSchedulerRefusalKeepsEarlier | src/oltDevice.py:1166-1171 | the only removal after a refused scheduler is of that scheduler |
| Hardware.McQueueRefusalRemovesSchedulers | src/oltDevice.py:1174-1181 | the removals after a refused queue are of that queue, then of every scheduler |
| Hardware.McFlowRefusalRemovesResources | src/oltDevice.py:1184-1193 | the removals after a refused flow are of that flow, every queue, then every scheduler |
| Hardware.McMemberRefusalRemovesGroup | src/oltDevice.py:1196-1200 | the only removal after a refused member update is of the group |
| Hardware.McAcceptedRemovesNothing | src/oltDevice.py:1150-1211 | a successful install removes nothing |
| Hardware.McInstallRemovesOnlyOnFailure | src/oltDevice.py:1150-1211 | a multicast install removes something exactly when it fails |
| Hardware.TeardownAppend | src/oltDevice.py:1213-1257 | a teardown of two parts stops in the first at a refusal, otherwise continues with the second |
| Hardware.McTeardownCases | src/oltDevice.py:1213-1257 | the multicast uninstall stage by stage: flows up to a refused one, the member group, queues up to a refused one, schedulers up to a refused one, then the OMCI removal |
| Hardware.McRemovePlan | src/oltDevice.py:1213-1257 | flows, member group, queues, then schedulers; `McRemoveRunIsTeardown` and `McRemoveComplete` state its run |
| Hardware.McRemoveRunIsTeardown | src/oltDevice.py:1213-1257 | the uninstall's branches are the teardown of its removal plan |
| Hardware.McRemoveComplete | src/oltDevice.py:1213-1257 | the multicast uninstall only removes, and on success removes every flow, queue and scheduler it installed |
| Hardware.McResourcesRefused | src/oltDevice.py:1158-1181 | an install that stops at the group, a scheduler or a queue fails with that stage's rollback |
| Hardware.McDeliveryOutcome | src/oltDevice.py:1183-1207 | an install that reaches the flows issues the resources' calls and then the flows and member group stage |
| Hardware.McInstallOk | src/oltDevice.py:1150-1211 | the install succeeds exactly when every stage is accepted |
| Hardware.McEarlyRefusalRemoves | src/oltDevice.py:1158-1181 | a refusal among the group, schedulers or queues fails the install and removes something |
| Hardware.McLateOutcome | src/oltDevice.py:1183-1207 | past the resources, the install removes something exactly when it fails |
| Provisioning.PriorityKey | src/oltDevice.py:119-126 | the multicast type looks up `(0, 0, 0, "multicast")`; a directed flow looks up the key of its ONU port, Internet or VoIP by the port's POTS bit |
| Provisioning.Installed | src/oltDevice.py:335-341 | the entry a successful install stores; `InstallThenClear` states it |
| Provisioning.Cleared | src/oltDevice.py:355-406 | the entry a successful uninstall leaves; `InstallThenClear` states that it undoes an install |
| Provisioning.InstallThenClear | src/oltDevice.py:336-341 | recording a hash in an empty slot and clearing it again gives the entry back; the other slot and the service object are untouched, and a 0 hash leaves the slot empty |
| Provisioning.Deletes | src/oltDevice.py:398-411 | whether an uninstall deletes the service; `DeletesIff` states when |
| Provisioning.DeletesIff | src/oltDevice.py:934-944 | uninstalling one direction deletes the service exactly when the other slot holds no truthy hash |
| Provisioning.Freed | src/oltDevice.py:1633-1640 | the pools after `free_gemport`; `Allocators.GemportPools.FreeGemport` states the same update on the pool object |
| Provisioning.GenerateFlow | src/oltServices.py:266-339 | the flow of the direction, recording its id only when the direction has priorities, the other direction's id untouched |
| Provisioning.CleanFlow | src/oltServices.py:302-342 | the direction's recorded id becomes 0, the other's is untouched |
| Provisioning.PutUnicastOk | src/oltDevice.py:341 | storing a unicast entry keeps the services table sound and the multicast entry |
| Provisioning.PopUnicastOk | src/oltDevice.py:943 | popping a unicast key keeps the table sound and the multicast entry |
| Provisioning.PutMulticastOk | src/oltDevice.py:1209 | storing the multicast entry under its key keeps the table sound |
| Provisioning.PopMulticastOk | src/oltDevice.py:1255 | popping the multicast key keeps the table sound and leaves no multicast entry |
| Provisioning.McRemoveComposed | src/oltDevice.py:1213-1257 | the two halves of a multicast uninstall that gets past the member group make up its removal run |
| Provisioning.OwnerIn | src/oltDevice.py:1642-1649 | the key reported is one of the table's keys |
| Provisioning.OwnerInIsFirst | src/oltDevice.py:1642-1649 | the owner found is the first entry holding the hash, its named slot holds the hash, upstream is reported only when the downstream slot does not hold it, and none is found exactly when no entry holds it |
| Provisioning.HashesWithExactly | src/oltDevice.py:1657-1663 | the hashes reported are exactly the table's keys whose cookie list holds the flow id, each once |
| Provisioning.ObjectsShrink | src/oltDevice.py:1643-1649 | popping a key, or storing an entry with the same service, brings in no new service object |
| Provisioning.DownstreamPorts | src/oltDevice.py:1696-1697 | one downstream entry per port of the group, in order |
| Provisioning.ReportedPortAsWritten | src/oltDevice.py:1701-1707 | the port as written; `ReportedPortAsWrittenMissesVoip` shows it naming the Internet service for a VoIP key |
| Provisioning.ReportedPort | src/oltDevice.py:1701-1714 | the port as intended; `ReportedPortFindsService` states that it leads back to the service |
| Provisioning.ReportedPortAsWrittenMissesVoip | src/oltDevice.py:1701-1707 | as written, the port reported after removing a VoIP service leads back to the Internet service of the same UNI |
| Provisioning.ReportedPortFindsService | src/oltDevice.py:1701-1714 | the intended reported port leads back to the removed service's own key |
| Provisioning.OltDevice.constructor | src/oltDevice.py:64-67 | no calls, an empty services table and an empty hash table, with the given GEM port pools |
| Provisioning.OltDevice.GetServiceFromFlow | src/oltDevice.py:1642-1649 | the loop over the table in order computes `OwnerIn` |
| Provisioning.OltDevice.GetFlowHash | src/oltDevice.py:1657-1663 | the loop over the hash table in order computes `HashesWith` |
| Provisioning.OltDevice.Call | src/oltDevice.py:277 | one call is logged and answered by the OLT at its position |
| Provisioning.OltDevice.RunCalls | src/oltDevice.py:1219-1223 | the calls are issued in order up to and including the first refused one, as a teardown |
| Provisioning.OltDevice.CallAll | src/oltDevice.py:1178-1180 | the calls are issued in order whatever the answers |
| Provisioning.OltDevice.RunMcResources | src/oltDevice.py:1158-1181 | the group, the schedulers and the queues, each refusal followed by its rollback as `McInstall` says |
| Provisioning.OltDevice.RunMcFlowRollback | src/oltDevice.py:1187-1192 | a refused flow, then every queue and every scheduler are removed |
| Provisioning.OltDevice.RunMcMembers | src/oltDevice.py:1195-1207 | a refused member group removes the group; an accepted one is followed by the OMCI configuration |
| Provisioning.OltDevice.RunMcDelivery | src/oltDevice.py:1183-1207 | the flows and the member group as `McDeliveryRun` says |
| Provisioning.OltDevice.RunMcInstall | src/oltDevice.py:1158-1207 | the calls are the staged install, and the members record the flow id exactly when the flows are generated |
| Provisioning.OltDevice.RunMcRemoveFront | src/oltDevice.py:1219-1230 | the flows are removed until a refusal, then the member group; the ids are cleaned and the group emptied only after acceptance |
| Provisioning.OltDevice.RunMcRemoveBack | src/oltDevice.py:1233-1247 | the queues, then the schedulers, each dropped from the service once every call of its kind is accepted |
| Provisioning.OltDevice.RunMcRemove | src/oltDevice.py:1219-1247 | the calls are the multicast teardown and the service forgets exactly what the OLT accepted to remove |
| Provisioning.OltDevice.InstallMulticast | src/oltDevice.py:1150-1211 | an occupied slot refuses with nothing issued; otherwise the calls are `McInstall`, and success records the flow id in the slot |
| Provisioning.OltDevice.UninstallMulticast | src/oltDevice.py:1213-1257 | an empty slot succeeds at once; otherwise the calls are the teardown, and a full run removes the OMCI configuration, frees the GEM port and pops the key |
| Provisioning.OltDevice.RetireMulticast | src/oltDevice.py:1251-1255 | the OMCI removal is issued, the GEM port freed on interface 0 and the multicast key popped |
| Provisioning.OltDevice.RunInstall | src/oltDevice.py:275-296 | the schedulers, queues and flow of one direction as a transaction, the flow id recorded once the flow is generated |
| Provisioning.OltDevice.RunRemove | src/oltDevice.py:883-904 | the flow, queues and schedulers of one direction as a teardown, the service forgetting each, as intended (see ## Findings, removal while iterating), once its call is accepted |
| Provisioning.OltDevice.InstallUnicast | src/oltDevice.py:798-876 | as intended (see ## Findings, `dwQueues`): an occupied slot refuses with nothing issued; otherwise the transaction runs, and success configures OMCI with `install` when neither slot held a truthy hash and records the hash |
| Provisioning.OltDevice.UninstallUnicast | src/oltDevice.py:878-944 | an empty slot succeeds at once; otherwise the teardown runs, and a full run removes the OMCI configuration and keeps the other slot or deletes the service |
| Provisioning.OltDevice.PreemptionOf | src/oltDevice.py:118-157 | the verdict of `check_priorities` on the table; `CheckPriorities` is proved to follow it, and `Services.ComparePerDirection` states the comparison it uses |
| Provisioning.OltDevice.CheckPriorities | src/oltDevice.py:118-157 | true when the key or the slot is free; otherwise the stored service's comparison decides, and a preempted service is uninstalled |
| Provisioning.OltDevice.AdmitReceived | src/oltDevice.py:1757-1794 | no meter, no customer VLAN, no flow type or no port rejects with nothing changed; a kept service is skipped; a preempting one proceeds under the hash of its cookies |
| Provisioning.OltDevice.InstallBuilt | src/oltDevice.py:1796-1946 | no key refuses; otherwise the install of the service's direction runs, and only success records the cookies under the hash |
| Provisioning.OltDevice.UninstallOwner | src/oltDevice.py:1685-1714 | the outcome is `RemovalOf` the state before: no owner exactly when no entry holds the hash; for a unicast owner the uninstall of its direction runs and a removal reports the UNI port as intended (see ## Findings, POTS bit); for the multicast owner an unknown group raises before any call with nothing changed, and otherwise the multicast uninstall runs and a removal reports every port of the group downstream |
| Provisioning.OltDevice.RemoveHash | src/oltDevice.py:1685-1716 | the outcome is `RemovalOf` the state before, and the hash is popped exactly when its owner was removed |
| Provisioning.OltDevice.RemoveFlowServices | src/oltDevice.py:1680-1721 | the walk over the hashes holding the flow: one outcome per hash until an unknown multicast group raises; the hash table loses exactly the removed ones; the flow counts as deleted exactly when none was refused; the ports reported are the removed services' ports in order, and none when the walk raised |
| Provisioning.OltDevice.RemoveHashes | src/oltDevice.py:1685-1718 | the loop over a list of hashes: the same outcomes, table, deleted flag and ports, each proved by its invariants |
| Provisioning.OltDevice.RemovalOf | src/oltDevice.py:1685-1714 | how the removal of one hash ends from the current state: no owner, an unknown group, a refused uninstall or a removal with its ports; `UninstallOwner` and `RemoveHash` are proved to return it |
| Provisioning.PoppedOf | src/oltDevice.py:1718 | the hashes popped along a walk; `PoppedOfMembers` states them |
| Provisioning.PoppedOfMembers | src/oltDevice.py:1685-1718 | a hash is popped exactly when its outcome is a removal, for distinct hashes |
| Provisioning.OutcomeStep | src/oltDevice.py:1685-1718 | one more outcome pops its hash exactly when it is a removal and adds exactly its ports |
| Provisioning.RemovedPorts | src/oltDevice.py:1699-1716 | the ports of the removals in order; none without a removal |
| Provisioning.OltDevice.Retire | src/oltDevice.py:932-944 | the OMCI removal with `delete` is issued; the entry keeps the other slot, or the service is deleted and its GEM port freed |
| OnuMib.Purged | src/oltAdaptor.py:2575-2577 | the rows of other indexes, in order; `PurgedMembers` states them |
| OnuMib.PurgedMembers | src/oltAdaptor.py:2575-2577 | the purge keeps exactly the rows of another index and no row of the operation's index |
| OnuMib.Treated | src/oltAdaptor.py:2568-2580 | a Set row operation on a table; `TreatedUnique` states the table it leaves |
| OnuMib.TreatedUnique | src/oltAdaptor.py:2568-2580 | a Set row operation keeps the table free of repeated indexes, leaves the operation's row there exactly when it is not a delete, and keeps every row of another index |
| OnuMib.ClassIds | src/oltAdaptor.py:2582-2594 | the ids of a class in insertion order; `ClassIdsMembers` states them |
| OnuMib.ClassIdsMembers | src/oltAdaptor.py:2582-2594 | the ids listed for a class are exactly the instances stored for it, each once |
| OnuMib.OnuMIB.constructor | src/oltAdaptor.py:2519-2520 | the MIB starts empty |
| OnuMib.OnuMIB.TableEntryTreatment | src/oltAdaptor.py:2568-2580 | the entity and its table are created when missing, the rows of the operation's index are removed and the operation appended unless it is a delete; every other field and entity stays |
| OnuMib.OnuMIB.AddModifyEntity | src/oltAdaptor.py:2523-2566 | an unknown message changes nothing; a delete drops its key; a Set on a managed table treats the row and merges the rest; a create, get response or upload answer inserts a new key or merges into an existing one |
| OnuMib.OnuMIB.GetEntityIds | src/oltAdaptor.py:2582-2594 | the ids of the class in insertion order, exactly the stored instances, each once |
| OnuMib.OnuMIB.EntityIdGetConfiguredField | src/oltAdaptor.py:2624-2640 | the id returned is an instance whose field reads as the value; none exactly when no instance has it |
| OnuMib.OnuMIB.EntityFieldConfigured | src/oltAdaptor.py:2607-2622 | true exactly when some instance of the class has the field reading as the value |
| OnuMib.OnuMIB.GetEntityValue | src/oltAdaptor.py:2642-2652 | a value exactly when the entity exists, and an absent field reads as `None` |
| OnuMib.OnuMIB.GetEntityData | src/oltAdaptor.py:2654-2664 | the entity exactly when it exists, agreeing with `get_entity_value` on every field |
| OnuMib.RemoveIndex | src/oltAdaptor.py:2575-2577 | the loop only removes rows, and on a table without repeated indexes it removes exactly the rows of the index |
| OnuMib.FirstOf | src/oltAdaptor.py:2577 | `list.remove` finds the first row equal to the entry |
| OnuMib.RemoveMatch | src/oltAdaptor.py:2575-2577 | on a table without repeated indexes, removing the matching row keeps the table free of repeats and the rows before it |
| OnuMib.NoneLeft | src/oltAdaptor.py:2575-2577 | a table with no row of the index is its own purge |
| OmciEncoders.Tci | src/oltAdaptor.py:1340 | the tag control word; `TciFields`, `TciRoundTrip` and `TciDecodes` state its fields |
| OmciEncoders.TciFields | src/oltAdaptor.py:1340 | each field of the tag control word holds the low bits of its operand |
| OmciEncoders.TciRoundTrip | src/oltAdaptor.py:1340 | a priority below 8, a one-bit CFI and a 12-bit VLAN id decode back unchanged |
| OmciEncoders.TciDecodes | src/oltAdaptor.py:1340 | every word is the encoding of its own fields |
| OmciEncoders.PriorityEightIsZero | src/oltAdaptor.py:1429 | priority 8 falls outside the 3-bit field: the word carries priority 0 |
| OmciEncoders.VlanFilterList | src/oltAdaptor.py:1320-1341 | refused exactly when more than 12 VLANs are given; otherwise one word per VLAN, in order, with its priority, CFI 0 and its VLAN id |
| OmciEncoders.UpstreamTci | src/oltAdaptor.py:1415-1429 | the upstream word carries the tag's priority and VLAN id with CFI 0 |
| OmciEncoders.ExtVlanOperation | src/oltAdaptor.py:829-891 | the extended VLAN rule as intended; `ExtVlanOperationFilters` states its filters and treatments |
| OmciEncoders.ExtVlanOperationFilters | src/oltAdaptor.py:829-891 | the outer filter is in use exactly for a double-tagged rule, the inner one is off exactly for an untagged rule, an unused filter matches any VLAN id, a missing priority means do not filter, and the treatment fields pass through |
| OmciEncoders.ExtVlanOperationAsWritten | src/oltAdaptor.py:829-891 | the rule as written; `UntaggedInnerVidAsWritten` and `AsWrittenAgreesOnCalls` compare it with the intended one |
| OmciEncoders.UntaggedInnerVidAsWritten | src/oltAdaptor.py:880 | as written, an untagged rule keeps its inner VLAN id, where the intended message forces 4096 |
| OmciEncoders.AsWrittenAgreesOnCalls | src/oltAdaptor.py:880 | for every call with the default inner VLAN id on untagged rules, the written and intended messages agree |
| OmciEncoders.IpOptions | src/oltAdaptor.py:1649-1655 | the IP options byte; `IpOptionsBits` states what each bit enables |
| OmciEncoders.IpOptionsBits | src/oltAdaptor.py:1637-1655 | DHCP is on exactly when the host is configured without a complete static address; ping, traceroute and the IP stack are on exactly when the host is not deleted; no higher bit |
| OmciDefs.BitposFromMask | external/omci/omci_defs.py:25-43 | the loop and the sort give the sorted positions of the set bits, one per set bit |
| OmciDefs.Collected | external/omci/omci_defs.py:37-42 | the positions the loop collects; `CollectedHasSetBit` and `CollectedFromSetBit` state them |
| OmciDefs.CollectedHasSetBit | external/omci/omci_defs.py:37-42 | every set bit contributes its position |
| OmciDefs.CollectedFromSetBit | external/omci/omci_defs.py:37-42 | every collected position comes from a set bit |
| OmciDefs.ZeroMask | external/omci/omci_defs.py:37 | a mask of 0 gives the empty list |
| OmciDefs.Bitpos | external/omci/omci_defs.py:25-43 | the sorted positions; `BitposEntries` and `DefaultPositions` state them, and `BitposFromMask` is proved to compute it |
| OmciDefs.BitposEntries | external/omci/omci_defs.py:25-43 | each entry is `lsb_pos + k * increment` for a set bit `k`, and every set bit gives one |
| OmciDefs.DefaultPositions | external/omci/omci_defs.py:25 | with the default `lsb_pos` 0 and `increment` 1, `k` is listed exactly when bit `k` is set |
| Omci.OmciErrorToStr | external/omci/omci.py:32-52 | every reason code maps to its own name, and "OperationCancelled" is returned only for a value no other code has |
| Omci.UnlistedCodes | external/omci/omci.py:50-52 | a value that names no other reason code maps to "OperationCancelled" |
| Omci.UndefinedCodes | external/omci/omci.py:50-52 | code 8, which no reason code has, and codes outside the range fall through to the last branch |
| Sorting.Sort | external/omci/omci_defs.py:43 | `sorted`: the result is ascending and a permutation of the input |

## Left out

- The gRPC transport to the OLT (`flow_add`, scheduler, queue and group calls, `ActivateOnu`, indications): each call is an abstract call answered by an oracle.
- OMCI transmission (`omci_msg_transmission`, frame building, per-transaction queues, timeouts, random transaction ids): the `omci_configure_*` and `omci_remove_*` routines are one logged call each, whose result no caller reads; only the MIB side effects and the field encoders are modelled.
- The OpenFlow socket loop, message packing and unpacking, multipart reply bodies and HELLO handling: wire I/O through a library that is not part of this model.
- SHA-256 and `struct.pack` of the cookie list in `install_received_service`: an uninterpreted function `hash`.
- `subscribers.info` and `openFlow_agent.config` file I/O, random passwords and `time.time()`: the password and the time are parameters, file writes are not modelled; a subscriber table read from `subscribers.info` is taken to be well formed (positive ONU ids, unique per interface), which `Allocators.Subscribers.GetOnuId` requires and nothing in the source checks.
- `src/agentQueue.py`, the dispatch loop of `openFlowAgent.py`, threads, the GUI, the console user interface, logging and prints.
- `generate_VoipService`, `generate_InternetService` and `generate_MulticastService` (object construction from controller meters): only their tag plan is modelled (`Services.PlanCommands`); `install_received_service` is modelled up to the build (`AdmitReceived`) and from the built key on (`InstallBuilt`).
- The ADD half of `configureFlows` and the re-install loop after a delete (a loop of `install_received_service` calls and controller error messages): the delete half is modelled by `RemoveFlowServices`, which reports the ports handed to `matchPorts`.
- `remove_gemport_unicast`, `onu_exists`, `decode_ipAddress`, `ListOfFlowMod.get_FlowData` and `free_flowMod`: lookups outside the modelled paths; IPv4 addresses are numbers.
- The forward walk does not follow a `gotoTable` that is not greater than the flow's own table, which admission never stores; the source would recurse, possibly without end.
- The multicast branch of `check_priorities` is modelled; its `flowType == "voip"` branch is unreachable from every caller and is not part of this model.
- The aliasing of the `data` dictionary of an OMCI message with the MIB entry it is stored under: a stored entity is a value.
- OmciEncoders.Tci: operands are 16-bit words; the masks make this exact for the non-negative values the callers pass.
- Protobuf fields left unset read as the proto3 default 0.
- OmciDefs.BitposFromMask: the mask is a `nat`; on a negative mask the source's `while mask:` never ends, because `-1 >> 1 == -1`, and every caller passes a non-negative attribute mask.
- Services.MulticastService.AddMember: follows `add_member` as intended; as written, a group with a member raises on the next interface (see ## Findings, `Services.SecondInterfaceRaises`).
- Services.MulticastService.RemoveTrafficSchedulers: drops every scheduler as intended; as written, the loop that removes while iterating skips entries (see ## Findings, `Services.SweepSkipsSecond`).
- Services.MulticastService.RemoveTrafficQueues: drops every queue as intended; as written, the same loop skips entries (see ## Findings).
- Provisioning.OltDevice.InstallUnicast: rolls a refused upstream queue back as intended; as written, the refusal raises on the unbound `dwQueues` and leaves the schedulers (see ## Findings, `Hardware.UpstreamQueueRefusalLeaks`).
- Provisioning.OltDevice.UninstallOwner: reports the UNI port of a removed VoIP service with the POTS bit, as intended; as written, the port lacks it (see ## Findings, `Provisioning.ReportedPortAsWrittenMissesVoip`).
- Provisioning.OltDevice.RemovalOf: a unicast removal carries the intended `ReportedPort`, with the POTS bit for a VoIP service; as written, `onu_to_portNo` is called without it (see ## Findings, row 4).
- Provisioning.OltDevice.RemoveHash: returns `RemovalOf`, so it reports the intended VoIP port (see ## Findings, row 4).
- Provisioning.OltDevice.RemoveHashes: collects the outcomes of `RemoveHash`, so its ports carry the intended VoIP port (see ## Findings, row 4).
- Provisioning.OltDevice.RemoveFlowServices: reports the ports `RemoveHashes` collects, so a removed VoIP service is reported with the intended port (see ## Findings, row 4).
- Services.UnicastService.RemoveTrafficSchedulers: drops every scheduler of the direction as intended; as written, the loop that removes while iterating skips the entry after each removed one (see ## Findings, row 1). The two agree whenever at most one scheduler is of the direction (`Services.SweepAgreesOnSingle`); a service that `generate_InternetService` reuses from the table gains a second scheduler of the same direction, and then they differ.
- Services.UnicastService.RemoveTrafficQueues: drops every queue of the direction as intended; as written, the same loop skips entries (see ## Findings, row 1), and the two agree whenever at most one queue is of the direction.
- Provisioning.OltDevice.RunRemove: the service's scheduler and queue lists become the intended removal of the direction, as `Services.UnicastService.RemoveTrafficSchedulers` and `RemoveTrafficQueues` state (see ## Findings, row 1); the same holds for the list clauses of `Provisioning.OltDevice.UninstallUnicast`, which repeats them.
- Provisioning.OltDevice.UninstallUnicast: its scheduler and queue lists are those of `RunRemove`, the intended removal (see ## Findings, row 1).
- Stats.UpdatedMeters: the band counters gain the exact integer quotient of the deltas by the band count, where the source floors a floating-point quotient; the two agree for deltas below 2^53.

## Findings

| source | as written | input that shows it | evidently intended | confidence | as-written member | corrected member |
|---|---|---|---|---|---|---|
| src/oltServices.py:44-47 | `remove_traffic_schedulers`/`remove_traffic_queues` remove from the repeated field while iterating over it, so the entry after each removed one is skipped | two downstream schedulers, removing DOWNSTREAM: the second stays | drop every entry of the direction (all for BIDIRECTIONAL) | high, not executed | Services.SweepSkipsSecond | Services.RemoveSelect |
| src/onosAdaptor.py:1168 | `matchPorts` passes the whole port record to `get_groupsByPort`, which compares it with port numbers, so no group is found | a downstream port whose service flows through a multicast group | pass `port["port_no"]` | high, not executed | Reconcile.AsWrittenMissesGroupFlow | Reconcile.CorrectedFindsGroupFlow |
| src/oltDevice.py:1548-1575 | `generate_voipExtension` stores a line under the integer `pots_id`, `get_voipExtension` looks it up under `str(pots_id)` | generate for POTS 1, then ask again: a second extension is assigned | find a line stored in this process | high, not executed | Allocators.AsWrittenReassigns | Allocators.GeneratedIsStored |
| src/oltDevice.py:1701-1707 | after removing a VoIP service, the reported port is computed without the POTS flag | any VoIP service key | report the VoIP port of the UNI | medium, not executed | Provisioning.ReportedPortAsWrittenMissesVoip | Provisioning.ReportedPortFindsService |
| src/oltDevice.py:845-850 | the upstream queue failure removes `dwQueues`, unbound when only the upstream direction is installed | an OLT that accepts the schedulers and refuses the queues | remove `upQueues` and the schedulers | high, not executed | Hardware.UpstreamQueueRefusalLeaks | Hardware.TransactionRollsBack |
| src/oltAdaptor.py:880 | the inner VLAN id is forced to 4096 for the tag type `"untaged"` | tag type `"untagged"` with inner VLAN id 100 | test `"untagged"` as the inner priority does | medium, not executed | OmciEncoders.UntaggedInnerVidAsWritten | OmciEncoders.ExtVlanOperationFilters |
| src/oltServices.py:450-454 | `exists_GroupMember` reads `member.intf_id`, a field `GroupMember` does not have (it is `interface_id`) | adding a second interface to a non-empty group raises | compare `member.interface_id` | high, not executed | Services.SecondInterfaceRaises | Services.GroupAddDistinct |
