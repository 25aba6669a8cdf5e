# MyTools core bookkeeping, modelled in Dafny

This project models the in-memory bookkeeping of the Unity tool set in `DevTools/Assets/_Assets`. It covers:

- **Typed event channels** (`EventSO<T>`, `EventSO<T1,T2>`) and `VariableReference<T>`, the value view over a channel.
- **The command invoker** of `CommandManager`.
- **The save/load pipeline** of `SaveDataManager`.
- **The inventory** (`InventoryDataManager`, `InventorySaveData`, `ScriptableObjectReference<Item>`).
- **The two generations of the name-keyed asset registry** (`ScriptableObjectManager`).
- **The two scene-lifecycle dispatchers** (`SceneLoadManager`).

Engine callbacks are modelled as follows:

- A subscriber's response, a saveable's `OnSave`/`OnLoad`/`LoadSaveData` and a listener's hooks are not run. Each call is appended to a trace field (`invoked`, `calls`).
- The engine's static events are explicit invocation lists of handlers (class `EngineEvents.Events`).
  - `+=` appends.
  - `-=` removes the last equal delegate, as `Delegate.Remove` does.
- Static state (the registries, the static listener list) is one object passed to the methods that use it.

Files:

- `engine.dfy`: assets, scenes, exceptions, the `is` filter `OfType`, and .NET `Dictionary` (entries plus keys in enumeration order).
- `engine_events.dfy`: the engine's event lists and listener fan-out.
- `event_channel.dfy`, `variable_reference.dfy`: `Command/EventSO.cs` and `Scripts/NetworkPlayer/VariableReference.cs`.
- `commands.dfy`: `Command/CommandManager.cs`.
- `save_data.dfy`: `Scripts/SaveData/SaveDataManager.cs`.
- `inventory.dfy`: `Scripts/Inventory/InventoryDataManager.cs`.
- `scripts_registry.dfy`: `Scripts/ScriptableObjectMaagement/ScriptableObjectManager.cs`. The first registration under a name wins, and the saveables array is tracked separately.
- `command_registry.dfy`: `Command/ScriptableObjectManager.cs`. A later registration under a name overwrites the earlier one. `Command/SceneLoadManager.cs` embeds a second copy of this class with the same members and bodies (lines 93-144), and this one module models both.
- `command_scene_load.dfy`: `Command/SceneLoadManager.cs`.
- `scripts_scene_load.dfy`: `Scripts/SceneManagement/SceneLoadManager.cs`.

Points where the model follows the code rather than its apparent intent:

- **Hidden subscriber list.** `EventSO<T>` and `EventSO<T1,T2>` declare their own subscriber list with `new`. This hides `BaseEventSO._subscribers`, which is the only list `RemoveNullSubscribers` compacts. Each channel therefore holds its base part as `base`. The nulls that `Unsubscribe`/`UnsubscribeAll` write into the derived list stay there, and the next loop over the derived list throws at the highest null slot. That throw is an `ok == false` outcome, not a precondition.
- **`Unsubscribe` matches on the origin's name.** It compares `methodName` with the origin's own name and never with the stored method name.
- **The `IsExecuting` setter changes nothing.** It assigns to its own `value` parameter.
- **`InvokeSequentially` skips a command.** After a `RemoveAt(i)` it still increments `i`, so the command that shifts into slot `i` is never executed.
- **Duplicate registrations.** The Scripts dispatcher appends listeners without a duplicate check. The Command dispatcher checks for duplicates in its list but registers every listener's handlers on every enable.

## Model

Paths are relative to the repository root.

| member | source | states |
|---|---|---|
| Engine.OfTypeMembers | DevTools/Assets/_Assets/Scripts/ScriptableObjectMaagement/ScriptableObjectManager.cs:90-100 | the `is T` filter keeps exactly the elements of the input that are a `T` |
| Engine.OfTypeAppend | DevTools/Assets/_Assets/Scripts/ScriptableObjectMaagement/ScriptableObjectManager.cs:109-116 | testing one more object appends it to the filtered list exactly when it is a `T`, keeping the input order |
| Engine.Dictionary.TryAdd | DevTools/Assets/_Assets/Scripts/ScriptableObjectMaagement/ScriptableObjectManager.cs:64-71 | a guarded `Add` keeps an existing key's value and enumeration place; a new key is entered and enumerated last |
| Engine.Dictionary.Put | DevTools/Assets/_Assets/Command/ScriptableObjectManager.cs:27-34 | the indexer overwrites an existing key in place and appends a new key at the end of the enumeration |
| Engine.ValuesCoverEntries | DevTools/Assets/_Assets/Command/ScriptableObjectManager.cs:18 | `Values` holds every entry's value and nothing else |
| EventChannel.LastNull | DevTools/Assets/_Assets/Command/EventSO.cs:146-148 | the highest null slot, the first one a downward loop dereferences; -1 exactly when the list is null-free |
| EventChannel.CompactedNullFree | DevTools/Assets/_Assets/Command/EventSO.cs:115-124 | RemoveNullSubscribers leaves no null slot |
| EventChannel.CompactedCount | DevTools/Assets/_Assets/Command/EventSO.cs:115-124 | compacting keeps every subscriber as often as it occurred, and only drops null slots |
| EventChannel.CompactedNullFreeUnchanged | DevTools/Assets/_Assets/Command/EventSO.cs:115-124 | a null-free list is left unchanged |
| EventChannel.RemoveNulls | DevTools/Assets/_Assets/Command/EventSO.cs:117-123 | the downward `RemoveAt` loop produces the compacted list |
| EventChannel.BaseEventSO.RemoveNullSubscribers | DevTools/Assets/_Assets/Command/EventSO.cs:115-124 | only the BASE list (the field declared at line 87) is compacted |
| EventChannel.NullOut | DevTools/Assets/_Assets/Command/EventSO.cs:180-200 | an unsubscribe loop keeps the length; above the highest null slot it nulls exactly the matching subscribers; it completes exactly when the list was null-free |
| EventChannel.NullMatching | DevTools/Assets/_Assets/Command/EventSO.cs:180-200 | the downward nulling loop computes NullOut, stopping at the first null slot it dereferences |
| EventChannel.RaiseCalls | DevTools/Assets/_Assets/Command/EventSO.cs:146-149 | a raise loop invokes the subscribers from the last slot down to the highest null slot, and completes exactly when there is none |
| EventChannel.InvokeAll | DevTools/Assets/_Assets/Command/EventSO.cs:146-149 | the downward invoking loop computes RaiseCalls |
| EventChannel.RaiseReachesEverySubscriber | DevTools/Assets/_Assets/Command/EventSO.cs:142-153 | on a null-free list every subscriber's response is invoked exactly once, from the last to the first |
| EventChannel.EventSO.Raise | DevTools/Assets/_Assets/Command/EventSO.cs:142-153 | compacts only the base list; invokes the derived list downward; HasRaised and LastValueRaised are set only when no null slot was met |
| EventChannel.EventSO.RaiseDefault | DevTools/Assets/_Assets/Command/EventSO.cs:155-164 | the same with `_defaultValue`, leaving LastValueRaised equal to the default |
| EventChannel.EventSO.Subscribe | DevTools/Assets/_Assets/Command/EventSO.cs:168-178 | both overloads append exactly one subscriber with `origin` at the end and leave earlier slots unchanged |
| EventChannel.EventSO.UnsubscribeAll | DevTools/Assets/_Assets/Command/EventSO.cs:180-189 | nulls the subscribers of `origin` in place, as NullOut with AllOf |
| EventChannel.EventSO.Unsubscribe | DevTools/Assets/_Assets/Command/EventSO.cs:191-200 | nulls in place, as NullOut with Named (origin and origin name) |
| EventChannel.EventSO.OnSceneUnload | DevTools/Assets/_Assets/Command/EventSO.cs:203-211 | compacts the base list; a persistent channel keeps its state; otherwise the derived list is emptied, HasRaised is false and LastValueRaised is the default |
| EventChannel.EventSO2.Raise | DevTools/Assets/_Assets/Command/EventSO.cs:286-296 | like EventSO.Raise, recording the values in the private fields only; the base HasRaised never changes |
| EventChannel.EventSO2.RaiseDefault | DevTools/Assets/_Assets/Command/EventSO.cs:273-283 | the same with both defaults |
| EventChannel.EventSO2.Subscribe | DevTools/Assets/_Assets/Command/EventSO.cs:298-308 | both overloads append exactly one subscriber at the end |
| EventChannel.EventSO2.UnsubscribeAll | DevTools/Assets/_Assets/Command/EventSO.cs:310-322 | nulls the matching slots in place, then compacts the base list only if the loop completed |
| EventChannel.EventSO2.Unsubscribe | DevTools/Assets/_Assets/Command/EventSO.cs:324-335 | the same with the Named match |
| EventChannel.EventSO2.OnSceneUnload | DevTools/Assets/_Assets/Command/EventSO.cs:263-271 | persistent: no state change; otherwise the list is emptied, both last values are reset to their defaults and hasRaised is false; the base HasRaised stays |
| EventChannel.NamedRemovalUsesOriginName | DevTools/Assets/_Assets/Command/EventSO.cs:195 | Unsubscribe(origin, m) is UnsubscribeAll(origin) when m is the origin's name, and nulls nothing otherwise |
| EventChannel.RemovalBreaksLaterLoops | DevTools/Assets/_Assets/Command/EventSO.cs:142-200 | after a removal has nulled a subscriber, the next raise and the next unsubscribe loop both throw |
| EventChannel.UnsubscribedSlotBreaksRaise | DevTools/Assets/_Assets/Command/EventSO.cs:142-189 | subscribe, unsubscribe all, then raise: the raise throws and HasRaised stays false |
| VariableReferences.VariableReference.Value | DevTools/Assets/_Assets/Scripts/NetworkPlayer/VariableReference.cs:21-24 | a constant reference reads `_value`; otherwise it reads the channel's LastValueRaised, and an unassigned channel throws NullReferenceException |
| VariableReferences.VariableReference.SetValue | DevTools/Assets/_Assets/Scripts/NetworkPlayer/VariableReference.cs:25-29 | stores the value, then raises it once; an unassigned channel throws after the value is stored; when the raise completes, HasRaised holds, LastValueRaised is the value and `_value` is the value, so a read gives it back in both modes |
| VariableReferences.SetThenRead | DevTools/Assets/_Assets/Scripts/NetworkPlayer/VariableReference.cs:19-30 | on a channel with one subscriber, setting reaches that subscriber once and the read-back is the value set |
| VariableReferences.SetUnassignedThenRead | DevTools/Assets/_Assets/Scripts/NetworkPlayer/VariableReference.cs:8-29 | with no channel assigned, a write throws but keeps the value, so a constant reference reads it back and a non-constant read throws |
| Commands.ExecuteCommand | DevTools/Assets/_Assets/Command/CommandManager.cs:116-128 | finishes exactly when the command does not fail with an exception other than OperationCanceledException |
| Commands.Sequential | DevTools/Assets/_Assets/Command/CommandManager.cs:141-151 | reference definition of one InvokeSequentially pass (executed commands, kept list, ending), with the skip after a removal; its properties are the Sequential* lemmas below |
| Commands.InvokeSequentially | DevTools/Assets/_Assets/Command/CommandManager.cs:141-151 | the index loop with `RemoveAt` computes the pass Sequential |
| Commands.Reverse | DevTools/Assets/_Assets/Command/CommandManager.cs:153-172 | reference definition of one InvokeReverse pass, cancellation caught and other failures ending it; its properties are ReverseRunsEveryCommand and ReverseStopsAtFailure |
| Commands.InvokeReverse | DevTools/Assets/_Assets/Command/CommandManager.cs:153-172 | the downward loop with `RemoveAt` and the caught cancellation computes the pass Reverse |
| Commands.SingleCommandEndings | DevTools/Assets/_Assets/Command/CommandManager.cs:116-172 | a cancelled command is swallowed by ExecuteCommand and InvokeReverse but ends InvokeSequentially |
| Commands.SequentialSkipsShiftedCommand | DevTools/Assets/_Assets/Command/CommandManager.cs:146-149 | with a flagged first command, the second is kept unexecuted and the third runs |
| Commands.SequentialOrder | DevTools/Assets/_Assets/Command/CommandManager.cs:143-150 | the executed trace and the remaining list are subsequences of the input, in order |
| Commands.SequentialRemovedWereExecuted | DevTools/Assets/_Assets/Command/CommandManager.cs:145-149 | every removed command was flagged, executed and completed |
| Commands.SequentialCompletedBeforeLast | DevTools/Assets/_Assets/Command/CommandManager.cs:143-150 | nothing is caught: every executed command but the last completed |
| Commands.SequentialFinishesIffAllCompleted | DevTools/Assets/_Assets/Command/CommandManager.cs:143-150 | the pass finishes normally exactly when every executed command completed |
| Commands.SequentialThrowsLast | DevTools/Assets/_Assets/Command/CommandManager.cs:145 | a pass that throws ends with the exception of the last command it executed |
| Commands.SequentialKeptFlagged | DevTools/Assets/_Assets/Command/CommandManager.cs:146-149 | on a list without repeats, a flagged command that was executed and kept is the one whose exception ended the pass |
| Commands.Reversed | DevTools/Assets/_Assets/Command/CommandManager.cs:155 | index i of the result is element `n - 1 - i` of the input |
| Commands.ReverseRunsEveryCommand | DevTools/Assets/_Assets/Command/CommandManager.cs:153-172 | with no failing command, every command runs once from the highest index down, the pass finishes, and exactly the completed flagged commands are removed |
| Commands.Kept | DevTools/Assets/_Assets/Command/CommandManager.cs:153-172 | the list InvokeReverse leaves when nothing fails: every command except the flagged ones that completed, in order; ReverseRunsEveryCommand ties it to Reverse |
| Commands.ReverseStopsAtFailure | DevTools/Assets/_Assets/Command/CommandManager.cs:157-170 | a failing command propagates: the commands below it are neither executed nor removed |
| Commands.CommandsOf | DevTools/Assets/_Assets/Command/CommandManager.cs:92 | the per-object list holds that object's command, or nothing |
| Commands.CommandManager.ExecuteCommands | DevTools/Assets/_Assets/Command/CommandManager.cs:80-83 | one sequential pass over a copy of the values; the dictionary is unchanged |
| Commands.CommandManager.ExecuteObjectCommandsSequentially | DevTools/Assets/_Assets/Command/CommandManager.cs:90-94 | a sequential pass over the at most one command stored for the object |
| Commands.BaseCommand.SetIsExecuting | DevTools/Assets/_Assets/Command/CommandManager.cs:28-32 | the setter leaves `isExecuting` unchanged |
| Commands.MoveCommand.Execute | DevTools/Assets/_Assets/Command/CommandManager.cs:58-64 | the two IsExecuting assignments leave `isExecuting` as it was |
| SaveData.SlotPathInjective | DevTools/Assets/_Assets/Scripts/SaveData/SaveDataManager.cs:87 | save and load (line 118) use one path per slot, and different slots use different files |
| SaveData.SlotPath | DevTools/Assets/_Assets/Scripts/SaveData/SaveDataManager.cs:87 | the file of a slot, the same expression at line 118; SlotPathInjective states that distinct slots get distinct files |
| SaveData.ParseNatString | DevTools/Assets/_Assets/Scripts/SaveData/SaveDataManager.cs:87 | the decimal rendering of a slot key reads back as that key |
| SaveData.IntStringInjective | DevTools/Assets/_Assets/Scripts/SaveData/SaveDataManager.cs:87 | distinct slot keys print differently |
| SaveData.LastWithId | DevTools/Assets/_Assets/Scripts/SaveData/SaveDataManager.cs:75-80 | the last saveable carrying an id, or none when no saveable does |
| SaveData.CollectedLastWins | DevTools/Assets/_Assets/Scripts/SaveData/SaveDataManager.cs:75-80 | after collecting, an id maps to the container of the last saveable with that id; ids no saveable carries keep the earlier save's entry |
| SaveData.Collected | DevTools/Assets/_Assets/Scripts/SaveData/SaveDataManager.cs:75-80 | reference definition of the collecting loop, `slot[id] = container` per saveable in array order; CollectedLastWins states its meaning |
| SaveData.CollectContainers | DevTools/Assets/_Assets/Scripts/SaveData/SaveDataManager.cs:75-80 | the collecting loop computes Collected |
| SaveData.NotifySaved | DevTools/Assets/_Assets/Scripts/SaveData/SaveDataManager.cs:92-95 | one OnSave per saveable, in array order |
| SaveData.LoadsPresentIds | DevTools/Assets/_Assets/Scripts/SaveData/SaveDataManager.cs:139-154 | a saveable gets LoadSaveData exactly when its id is present, and then with the container stored under it |
| SaveData.Loads | DevTools/Assets/_Assets/Scripts/SaveData/SaveDataManager.cs:139-154 | the (saveable, container) pairs the load loop applies, in array order; LoadsPresentIds and LoadsAllPresent state its meaning |
| SaveData.LoadsAllPresent | DevTools/Assets/_Assets/Scripts/SaveData/SaveDataManager.cs:139-154 | when every id is present, each saveable gets its container, in order |
| SaveData.Applied | DevTools/Assets/_Assets/Scripts/SaveData/SaveDataManager.cs:144-151 | one LoadSaveData call per pair; an exception is recorded and never stops the others |
| SaveData.ApplyLoads | DevTools/Assets/_Assets/Scripts/SaveData/SaveDataManager.cs:139-154 | the applying loop computes Applied of Loads |
| SaveData.NotifyLoaded | DevTools/Assets/_Assets/Scripts/SaveData/SaveDataManager.cs:158-161 | one OnLoad per saveable, in array order, including skipped and failed ones |
| SaveData.SaveDataManager.CurrentSlot | DevTools/Assets/_Assets/Scripts/SaveData/SaveDataManager.cs:67-72 | the existing slot, or a new empty one |
| SaveData.SaveDataManager.SaveAsync | DevTools/Assets/_Assets/Scripts/SaveData/SaveDataManager.cs:65-99 | get-or-create the slot, store every container under its id, write the encoded slot to the slot path, one OnSave each, then one OnDataSaved; a null saveable array throws after the slot exists |
| SaveData.SaveDataManager.LoadAsync | DevTools/Assets/_Assets/Scripts/SaveData/SaveDataManager.cs:116-170 | a missing file or a decode error touches no saveable; otherwise present ids are loaded with failures isolated, then every saveable gets OnLoad and OnDataLoaded is raised once; saveSlots never changes |
| SaveData.SaveDataManager.LocateSaveables | DevTools/Assets/_Assets/Scripts/SaveData/SaveDataManager.cs:173-178 | the available saveables become the registry's ISaveable objects; a null registry array throws |
| SaveData.SaveDataManager.OnStopwatchStart | DevTools/Assets/_Assets/Scripts/SaveData/SaveDataManager.cs:190-193 | the same as LocateSaveables |
| SaveData.SaveDataManager.OnStopwatchStop | DevTools/Assets/_Assets/Scripts/SaveData/SaveDataManager.cs:195-198 | the available saveables become null |
| SaveData.SaveLoadRoundTrip | DevTools/Assets/_Assets/Scripts/SaveData/SaveDataManager.cs:75-154 | with distinct ids, loading a freshly collected slot hands every saveable exactly the container it saved |
| SaveData.SaveThenLoad | DevTools/Assets/_Assets/Scripts/SaveData/SaveDataManager.cs:65-170 | with a decoder that inverts the encoder, save then load both complete; the trace is OnSaves, OnDataSaved, each saveable's own container, OnLoads, OnDataLoaded |
| Inventory.Wrap | DevTools/Assets/_Assets/Scripts/Inventory/InventoryDataManager.cs:22 | a value in the Int32 range is unchanged |
| Inventory.AddWrapped | DevTools/Assets/_Assets/Scripts/Inventory/InventoryDataManager.cs:22 | `+=` on ints is the true sum when that sum fits in 32 bits |
| Inventory.AddWrappedCongruent | DevTools/Assets/_Assets/Scripts/Inventory/InventoryDataManager.cs:22 | the wrapped sum differs from the true sum by a multiple of 2^32 |
| Inventory.RefEquals | DevTools/Assets/_Assets/Scripts/Inventory/InventoryDataManager.cs:175-178 | two references are equal exactly when their names are |
| Inventory.EqualsObject | DevTools/Assets/_Assets/Scripts/Inventory/InventoryDataManager.cs:180-183 | equal to an object exactly when it is a reference with the same name |
| Inventory.HashCode | DevTools/Assets/_Assets/Scripts/Inventory/InventoryDataManager.cs:190-193 | 0 for a null name, otherwise the name's hash |
| Inventory.EqualRefsHashEqually | DevTools/Assets/_Assets/Scripts/Inventory/InventoryDataManager.cs:175-193 | equal references hash equally |
| Inventory.Resolve | DevTools/Assets/_Assets/Scripts/Inventory/InventoryDataManager.cs:167 | `Value` is the registry's typed lookup by name; a null name throws ArgumentNullException |
| Inventory.EqualsItem | DevTools/Assets/_Assets/Scripts/Inventory/InventoryDataManager.cs:185-188 | equal to an item exactly when the name resolves to it; a failed resolution propagates |
| Inventory.Added | DevTools/Assets/_Assets/Scripts/Inventory/InventoryDataManager.cs:17-24 | a new item is entered with `amount`; an existing one gets `amount` added (wrapping); no other key changes |
| Inventory.MergeAddsSavedQuantities | DevTools/Assets/_Assets/Scripts/Inventory/InventoryDataManager.cs:61-71 | when the saved keys resolve, loading adds each saved quantity onto the current one and keeps unsaved items: a merge, not a replace |
| Inventory.Merge | DevTools/Assets/_Assets/Scripts/Inventory/InventoryDataManager.cs:61-71 | reference definition of the merge loop of LoadSaveData, stopping at the first key that does not resolve; MergeAddsSavedQuantities states its meaning |
| Inventory.ZeroedHoldsEveryName | DevTools/Assets/_Assets/Scripts/Inventory/InventoryDataManager.cs:88-96 | Initialize holds one key per distinct item name, each with quantity 0 |
| Inventory.Zeroed | DevTools/Assets/_Assets/Scripts/Inventory/InventoryDataManager.cs:88-96 | the dictionary after `AddItem(item, 0)` per loaded item; ZeroedHoldsEveryName states its contents |
| Inventory.AddedZero | DevTools/Assets/_Assets/Scripts/Inventory/InventoryDataManager.cs:94 | `AddItem(item, 0)` on zero quantities enters the item with 0 |
| Inventory.SaveDataItems | DevTools/Assets/_Assets/Scripts/Inventory/InventoryDataManager.cs:125-136 | succeeds exactly when every key resolves, with one ItemData per key |
| Inventory.SaveDataOnePerEntry | DevTools/Assets/_Assets/Scripts/Inventory/InventoryDataManager.cs:125-136 | the save data holds exactly one ItemData per entry, in order, with that entry's quantity |
| Inventory.EntryData | DevTools/Assets/_Assets/Scripts/Inventory/InventoryDataManager.cs:128-134 | the i-th ItemData is the i-th key with its quantity |
| Inventory.NewInventorySaveData | DevTools/Assets/_Assets/Scripts/Inventory/InventoryDataManager.cs:125-136 | the constructor's loop computes SaveDataItems; a null dictionary throws |
| Inventory.InventoryDataManager.AddItem | DevTools/Assets/_Assets/Scripts/Inventory/InventoryDataManager.cs:17-24 | the dictionary becomes Added; a null dictionary throws and is left null |
| Inventory.InventoryDataManager.GetQuantity | DevTools/Assets/_Assets/Scripts/Inventory/InventoryDataManager.cs:27-38 | the stored quantity, 0 for an absent item |
| Inventory.InventoryDataManager.ValidateQuantity | DevTools/Assets/_Assets/Scripts/Inventory/InventoryDataManager.cs:40-49 | true exactly when the item is present with at least `amount`, so an absent item fails even for a non-positive amount |
| Inventory.InventoryDataManager.LoadSaveData | DevTools/Assets/_Assets/Scripts/Inventory/InventoryDataManager.cs:61-76 | an inventory container is merged key by key; any other container throws InvalidCastException |
| Inventory.InventoryDataManager.Initialize | DevTools/Assets/_Assets/Scripts/Inventory/InventoryDataManager.cs:88-96 | a new dictionary with every loaded item at 0 |
| Inventory.InventoryDataManager.OnStopwatchStart | DevTools/Assets/_Assets/Scripts/Inventory/InventoryDataManager.cs:109-112 | the same as Initialize |
| Inventory.InventoryDataManager.OnStopwatchStop | DevTools/Assets/_Assets/Scripts/Inventory/InventoryDataManager.cs:114-117 | the dictionary becomes null |
| ScriptsRegistry.FirstNamed | DevTools/Assets/_Assets/Scripts/ScriptableObjectMaagement/ScriptableObjectManager.cs:64-71 | the first object carrying a name, or none when no object does |
| ScriptsRegistry.FirstWithId | DevTools/Assets/_Assets/Scripts/ScriptableObjectMaagement/ScriptableObjectManager.cs:57-60 | `FirstOrDefault` by instance id: the first member with that id, no earlier member having it, or none when there is none |
| ScriptsRegistry.RegisteredKeepsFirst | DevTools/Assets/_Assets/Scripts/ScriptableObjectMaagement/ScriptableObjectManager.cs:105-119 | registering keeps every present name and adds each new name with its first object |
| ScriptsRegistry.Registered | DevTools/Assets/_Assets/Scripts/ScriptableObjectMaagement/ScriptableObjectManager.cs:105-119 | the name map after AddScriptableObject per loaded object, kept well formed; RegisteredKeepsFirst states its contents |
| ScriptsRegistry.ScriptableObjectManager.All | DevTools/Assets/_Assets/Scripts/ScriptableObjectMaagement/ScriptableObjectManager.cs:22 | one object per registered name, covering all entries |
| ScriptsRegistry.ScriptableObjectManager.Clear | DevTools/Assets/_Assets/Scripts/ScriptableObjectMaagement/ScriptableObjectManager.cs:24-27 | empties the name map and leaves SaveableScriptableObjects unchanged |
| ScriptsRegistry.ScriptableObjectManager.GetScriptableObjectByName | DevTools/Assets/_Assets/Scripts/ScriptableObjectMaagement/ScriptableObjectManager.cs:30-38 | the object under the name, or KeyNotFoundException |
| ScriptsRegistry.ScriptableObjectManager.GetScriptableObjectByNameAs | DevTools/Assets/_Assets/Scripts/ScriptableObjectMaagement/ScriptableObjectManager.cs:40-48 | as above, also throwing when the object is not a `T` |
| ScriptsRegistry.ScriptableObjectManager.GetScriptableObjectByID | DevTools/Assets/_Assets/Scripts/ScriptableObjectMaagement/ScriptableObjectManager.cs:57-60 | the first registered object with that id in enumeration order; null exactly when none has it |
| ScriptsRegistry.ScriptableObjectManager.GetScriptableObjectByIDAs | DevTools/Assets/_Assets/Scripts/ScriptableObjectMaagement/ScriptableObjectManager.cs:51-55 | the object GetScriptableObjectByID finds (the first with that id), cast to `T`; null when it is not a `T` |
| ScriptsRegistry.ScriptableObjectManager.AddScriptableObject | DevTools/Assets/_Assets/Scripts/ScriptableObjectMaagement/ScriptableObjectManager.cs:62-72 | an existing key keeps its first object; otherwise the object is inserted; other names are unchanged |
| ScriptsRegistry.ScriptableObjectManager.GetScriptableObject | DevTools/Assets/_Assets/Scripts/ScriptableObjectMaagement/ScriptableObjectManager.cs:74-84 | null for an absent key, and `as T` of the stored object otherwise |
| ScriptsRegistry.ScriptableObjectManager.GetSaveableScriptableObjects | DevTools/Assets/_Assets/Scripts/ScriptableObjectMaagement/ScriptableObjectManager.cs:86-102 | the ISaveable members in order, skipping the rest; a null array throws |
| ScriptsRegistry.ScriptableObjectManager.LoadAllScriptableObjects | DevTools/Assets/_Assets/Scripts/ScriptableObjectMaagement/ScriptableObjectManager.cs:105-119 | registers by name, first wins; SaveableScriptableObjects gets every ISaveable of the input, including rejected duplicates |
| CommandRegistry.LastNamed | DevTools/Assets/_Assets/Command/ScriptableObjectManager.cs:49-57 | the last object carrying a name, or none when no object does |
| CommandRegistry.LoadedKeepsLast | DevTools/Assets/_Assets/Command/ScriptableObjectManager.cs:49-57 | after loading, each name the input carries maps to its last object; other names keep theirs |
| CommandRegistry.Loaded | DevTools/Assets/_Assets/Command/ScriptableObjectManager.cs:49-57 | the name map after the overwriting AddScriptableObject per loaded object, kept well formed; LoadedKeepsLast states its contents |
| CommandRegistry.ScriptableObjectManager.All | DevTools/Assets/_Assets/Command/ScriptableObjectManager.cs:18 | one object per registered name, covering all entries |
| CommandRegistry.ScriptableObjectManager.Clear | DevTools/Assets/_Assets/Command/ScriptableObjectManager.cs:20-23 | the registry is empty, so All is empty |
| CommandRegistry.ScriptableObjectManager.AddScriptableObject | DevTools/Assets/_Assets/Command/ScriptableObjectManager.cs:25-35 | the key maps to the new object, existing or not; no other key changes |
| CommandRegistry.ScriptableObjectManager.GetScriptableObject | DevTools/Assets/_Assets/Command/ScriptableObjectManager.cs:37-47 | null when the key is absent or the object is not a `T` |
| CommandRegistry.ScriptableObjectManager.LoadAllScriptableObjects | DevTools/Assets/_Assets/Command/SceneLoadManager.cs:135-142 | every loaded object is registered by name, the last of a name winning (the same as Command/ScriptableObjectManager.cs:49-57) |
| EngineEvents.RemoveLast | DevTools/Assets/_Assets/Command/SceneLoadManager.cs:74-78 | `-=` removes one registration of the delegate, and changes nothing when it is not registered |
| EngineEvents.RemoveEachCount | DevTools/Assets/_Assets/Command/SceneLoadManager.cs:72-80 | removing registered handlers takes away exactly those registrations |
| EngineEvents.RemoveEach | DevTools/Assets/_Assets/Command/SceneLoadManager.cs:72-80 | a run of `-=` in order; RemoveEachCount and RemoveEachAppend state what it removes |
| EngineEvents.RemoveEachAppend | DevTools/Assets/_Assets/Command/SceneLoadManager.cs:72-80 | one more `-=` after a run of removals |
| EngineEvents.AddThenRemoveRestores | DevTools/Assets/_Assets/Command/SceneLoadManager.cs:35-78 | adding handlers and removing the same ones restores the registrations |
| EngineEvents.Repeat | DevTools/Assets/_Assets/Command/SceneLoadManager.cs:39 | n registrations of one delegate |
| EngineEvents.LoadHandlers | DevTools/Assets/_Assets/Command/SceneLoadManager.cs:35 | one OnSceneLoad delegate per listener, in order |
| EngineEvents.UnloadHandlers | DevTools/Assets/_Assets/Command/SceneLoadManager.cs:36 | one OnSceneUnload delegate per listener, in order |
| EngineEvents.FanOut | DevTools/Assets/_Assets/Scripts/SceneManagement/SceneLoadManager.cs:89-92 | one call per listener, in list order |
| EngineEvents.FanOutReachesEachOccurrence | DevTools/Assets/_Assets/Scripts/SceneManagement/SceneLoadManager.cs:89-92 | a listener is told as often as it occurs in the list |
| EngineEvents.Notify | DevTools/Assets/_Assets/Scripts/SceneManagement/SceneLoadManager.cs:98-101 | the `foreach` over the listener list computes FanOut |
| EngineEvents.TimesCount | DevTools/Assets/_Assets/Command/SceneLoadManager.cs:39-67 | in n repetitions of a call sequence, each call occurs n times as often |
| EngineEvents.RepeatedFanOutReachesEach | DevTools/Assets/_Assets/Command/SceneLoadManager.cs:39-67 | k registrations of a fan-out tell a listener that occurs m times exactly k*m times |
| CommandSceneLoad.AppendNew | DevTools/Assets/_Assets/Command/SceneLoadManager.cs:34 | the list only grows, and keeps its earlier entries in place |
| CommandSceneLoad.AppendNewMembers | DevTools/Assets/_Assets/Command/SceneLoadManager.cs:34 | afterwards the list holds exactly what it held and what was offered |
| CommandSceneLoad.AppendNewDistinct | DevTools/Assets/_Assets/Command/SceneLoadManager.cs:34 | the Contains test keeps a list without duplicates |
| CommandSceneLoad.AppendNewPresent | DevTools/Assets/_Assets/Command/SceneLoadManager.cs:34 | listeners already in the list add nothing |
| CommandSceneLoad.AppendNewFresh | DevTools/Assets/_Assets/Command/SceneLoadManager.cs:34 | distinct new listeners are all appended, in order |
| CommandSceneLoad.DoubleEnableLeaks | DevTools/Assets/_Assets/Command/SceneLoadManager.cs:29-80 | two enables keep one list entry per listener but register its sceneLoaded, sceneUnloaded and playModeStateChanged handlers twice, so one disable leaves one registration of each behind |
| CommandSceneLoad.EnableThenDisableRestores | DevTools/Assets/_Assets/Command/SceneLoadManager.cs:27-89 | a first enable followed by a disable gives sceneLoaded, sceneUnloaded and playModeStateChanged back the registrations they had |
| CommandSceneLoad.SubscribeListeners | DevTools/Assets/_Assets/Command/SceneLoadManager.cs:30-43 | the enable loop: the list becomes AppendNew of the listeners; one load, one unload and one play-mode registration per listener found |
| CommandSceneLoad.UnsubscribeListeners | DevTools/Assets/_Assets/Command/SceneLoadManager.cs:72-80 | the disable loop removes one registration of each per listener in the list |
| CommandSceneLoad.SceneLoadManager.OnEnable | DevTools/Assets/_Assets/Command/SceneLoadManager.cs:27-55 | loads the registry, then subscribes every registered listener as SubscribeListeners states |
| CommandSceneLoad.SceneLoadManager.OnPlayModeStateChanged | DevTools/Assets/_Assets/Command/SceneLoadManager.cs:57-67 | on EnteredEditMode each listener is told the active scene unloads; other states do nothing |
| CommandSceneLoad.SceneLoadManager.PlayModeStateChanged | DevTools/Assets/_Assets/Command/SceneLoadManager.cs:39-67 | raising the event runs the handler once per registration, so the listeners are told that many times |
| CommandSceneLoad.SceneLoadManager.OnDisable | DevTools/Assets/_Assets/Command/SceneLoadManager.cs:70-89 | removes each listener's registrations, then empties the list and the registry |
| ScriptsSceneLoad.AddListeners | DevTools/Assets/_Assets/Scripts/SceneManagement/SceneLoadManager.cs:54-60 | appends every ISceneLoadListener in registry order, with no duplicate check |
| ScriptsSceneLoad.DoubleInitDuplicates | DevTools/Assets/_Assets/Scripts/SceneManagement/SceneLoadManager.cs:54-92 | two initialisations enter each listener twice, so every fan-out tells it twice |
| ScriptsSceneLoad.SceneLoadManager.InitSceneLoadListeners | DevTools/Assets/_Assets/Scripts/SceneManagement/SceneLoadManager.cs:50-65 | appends the registry's listeners and registers each of the four dispatchers once |
| ScriptsSceneLoad.SceneLoadManager.OnDisable | DevTools/Assets/_Assets/Scripts/SceneManagement/SceneLoadManager.cs:68-83 | unregisters the four dispatchers, empties the list and the registry's name map |
| ScriptsSceneLoad.SceneLoadManager.OnSceneLoad | DevTools/Assets/_Assets/Scripts/SceneManagement/SceneLoadManager.cs:86-93 | every listener is told once, in list order |
| ScriptsSceneLoad.SceneLoadManager.OnSceneUnload | DevTools/Assets/_Assets/Scripts/SceneManagement/SceneLoadManager.cs:95-102 | every listener is told once, in list order |
| ScriptsSceneLoad.SceneLoadManager.OnSceneStopWatchStart | DevTools/Assets/_Assets/Scripts/SceneManagement/SceneLoadManager.cs:105-114 | every listener gets OnStopwatchStart with the active scene, in list order |
| ScriptsSceneLoad.SceneLoadManager.OnSceneStopWatchStop | DevTools/Assets/_Assets/Scripts/SceneManagement/SceneLoadManager.cs:117-126 | every listener gets OnStopwatchStop, then the list is empty |
| ScriptsSceneLoad.SceneLoadManager.RaiseStopwatchStart | DevTools/Assets/_Assets/Scripts/SceneManagement/SceneLoadManager.cs:105-114 | each registration (line 61) of the start dispatcher tells every listener once |
| ScriptsSceneLoad.SceneLoadManager.RaiseStopwatchStop | DevTools/Assets/_Assets/Scripts/SceneManagement/SceneLoadManager.cs:117-126 | the first registration (line 62) tells every listener and empties the list, so later ones tell nobody; with none, nothing changes |

## Left out

- **Logging.** `Debug.Log`, `LogWarning` and `LogError` have no effect on state and are dropped. The branches that only log are kept as branches that change nothing.
- **Serialization and file I/O.** Odin `SerializationUtility`, `Encoding.UTF8` and `File.WriteAllTextAsync`/`ReadAllTextAsync`/`Exists` are foreign library calls. They become the map in `SaveData.FileStore` and the parameters `encode`/`decode`, and `decode` may fail.
- **`Path.Combine`** is modelled for a relative file name with '/' as the only separator.
- **`Application.persistentDataPath`** is the constant `dataPath`.
- **Concurrency.** `InvokeSimultaneously`, `ExecuteCommandsSimultaneously`, `ExecuteObjectCommandsSimultaneously` and `ExecuteSimultaneously` use `Task.WhenAll` and are left out. `await` in the sequential paths is a plain sequential step.
- **`ExecuteSingle`** is left out. It only forwards to ExecuteCommand, which is modelled.
- **`MoveCommand.Execute`'s motion** is left out: a float position update and a timed wait. Only its two `IsExecuting` assignments are modelled.
- **Commands.** How a command's `Execute` ends is an oracle `run`. A command is its identity and its RemoveAfterExecute flag.
- **Callback side effects.**
  - Subscriber responses, `ISaveable` methods and listener hooks are recorded, not run. Their effects on other objects, including re-entrant calls into the channel or the registry, are not modelled.
  - `GetUniqueIdentifier` and `GetSaveData` are the parameters `identify` and `snapshot`, and they do not throw.
  - Whether `LoadSaveData` throws is the parameter `fails`.
- **Null objects.**
  - Null origins, null responses and null callbacks are not modelled.
  - A null item in `AddItem`, and a null saveable or listener among the loaded objects, are not modelled.
  - Null arrays and null dictionaries are modelled as `Option`, with the exceptions they cause.
  - An unassigned `_event` channel of a VariableReference is modelled as a null reference, with the NullReferenceException it causes.
- **Engine plumbing.**
  - `Resources.LoadAll` and `LoadScriptableObject<T>` are a given input sequence `loaded`.
  - `SceneManager.GetActiveScene()` is a parameter. The Command dispatcher reads it once per listener; the model reads it once per call.
  - A UnityEngine.Object is its instance id and name, compared as a whole. Unity's `==` compares instance ids only, so names are assumed not to change while an object is registered or subscribed.
- **Editor scene list.** `EditorBuildSettings.scenes` and the editor-only `_scenes` list are left out. The editor build is assumed, so the `#if UNITY_EDITOR` delegate registrations are included.
- **Container aliasing.** `SaveDataSet` is a value here. The source mutates the slot object already stored in `saveSlots`, which gives the same final map because nothing else holds it.
- **Static state** (the registries, the Scripts dispatcher's listener list) is one object. Static constructors and `RuntimeInitializeOnLoadMethod` ordering are not modelled.
- **Static event subscribers.** `OnDataSaved` and `OnDataLoaded` are recorded as one call each (`DataSaved`, `DataLoaded`); their subscribers are not modelled.
- **Engine event raising** is modelled only for one manager's own delegates (`PlayModeStateChanged`, `RaiseStopwatchStart`, `RaiseStopwatchStop`). Other delegates on the same lists are not run.
- **Empty hooks.** `SaveDataManager.OnSceneLoad`/`OnSceneUnload`, `InventoryDataManager.OnSave`/`OnLoad`/`OnSceneLoad`/`OnSceneUnload`, `BaseEventSO.OnSceneLoad` and `SceneLoadManager.OnEnable` of the Scripts tree (which only fills `_scenes`) have empty bodies or only editor effects.
- **`TriggerSave`, `TriggerLoad` and the `commandManager` field** of SaveDataManager are left out. They wrap SaveAsync and LoadAsync in an `AsyncCommand` type and a static `CommandManager.ExecuteCommand` that are not part of this model.
- **`GetUniqueIdentifier` and `GetSaveData` of InventoryDataManager** are left out. They return the instance id as a string and `this`.
- **Untouched files.**
  - `InputEventChannel.cs` is input-system glue.
  - Both `SceneStopwatch.cs` files are GameObject lifecycle code.
  - `PlayerNetworkDataController.cs` is an empty behaviour.
  - `Seed.cs` holds data fields only.
  - Inspector and serialization attributes are left out too.
- **Asset types.** Whether an asset is an `Item`, an `ISaveable` or an `ISceneLoadListener` is read from its `types` set.
