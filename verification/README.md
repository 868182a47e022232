# MTA:SA client core, modelled in Dafny

This project models five pieces of the Multi Theft Auto: San Andreas code base and proves properties of them:

- **The client vehicle manager.**
  - The static model catalog: valid ids, trains, the passenger, attribute and variant tables, and random cosmetic variants.
  - Vehicle-type classification, damage-model and door support, and the mapping from passenger index to game seat.
  - The bookkeeping of all vehicles and the streamed-in subset: deletion, removal, lookup, the nearest vehicle and the per-frame pulse.
- **The latent-transfer receiver.** Chunks of a rate-limited transfer are assembled into a buffer. A finished packet transfer is turned back into a packet, and every protocol violation ends the connection.
- **`SString`.** The null-safe constructor from a C string, and `TSplitString::Split`.
- **The integer-only network sync structures.**
  - SIntegerSync, bodypart, alpha, heat haze, siren-add and the unoccupied-vehicle flags.
  - The vehicle part-state and damage structures.
  - Each is written to and read from an abstract bit stream. The main results are read-after-write round trips.
- **The radar map's control state.**
  - Zoom levels, map movement, and the clamping of the map to the screen edges.
  - The enabled/forced visibility switch and what it does to the HUD, chat and debug view.
  - The choice of marker texture.

Modules and files:

- `Common` (common.dfy): fixed-width integers, `Option`, `Clamp`.
- `VehicleModels` (vehicle_models.dfy): the model tables, validity, variants and the `Has*` queries of CClientVehicleManager.cpp.
- `VehicleTypes` (vehicle_types.dfy): vehicle type, damage model, doors and seats.
- `VehicleRegistry` (vehicle_registry.dfy): the manager's vehicle lists.
- `LatentReceiver` (latent_receiver.dfy): CLatentReceiver.cpp.
- `SplitString` (split_string.dfy): SString.h.
- `BitStream` (bitstream.dfy): the abstract bit stream the sync structures use.
- `SyncStructures` (sync_structures.dfy): the integer, bodypart, alpha, heat-haze, siren and unoccupied-vehicle structures of SyncStructures.h.
- `SyncDamage` (sync_damage.dfy): the part-state and vehicle-damage structures of SyncStructures.h.
- `RadarMap` (radar_map.dfy): CRadarMap.cpp.

Outside collaborators become parameters of the functions that use them:

- the game's model-info shape predicates;
- `rand()` draws;
- the distance from the query point to a vehicle;
- a vehicle's pulse;
- the pool's vehicle count;
- the float projection that places the radar map.

Source paths in the table are relative to the repository root.

## Model

| member | source | states |
|---|---|---|
| VehicleModels.IsValidModel | branches/Analog-Control-States/MTA10/mods/shared_logic/CClientVehicleManager.cpp:453-456 | A valid model indexes every per-model table in bounds and is never the unused id 570. |
| VehicleModels.IsTrainModel | branches/Analog-Control-States/MTA10/mods/shared_logic/CClientVehicleManager.cpp:445-450 | Every train model lies in 400..611, and every train other than 570 is a valid model. |
| VehicleModels.ValidModelIndex | branches/Analog-Control-States/MTA10/mods/shared_logic/CClientVehicleManager.cpp:445-456 | A model is valid exactly when it lies in 400..611 and is not 570. 570 still counts as a train model. Every train model other than 570 is valid. |
| VehicleModels.GetMaxPassengerCount | branches/Analog-Control-States/MTA10/mods/shared_logic/CClientVehicleManager.cpp:487-497 | A valid model gets its entry of the passenger table and an invalid one gets 255. Every result is one of the counts the seat mapping handles. |
| VehicleModels.HasTurret | branches/Analog-Control-States/MTA10/mods/shared_logic/CClientVehicleManager.cpp:632-637 | True exactly for models 407, 432 and 601. |
| VehicleModels.HasSirens | branches/Analog-Control-States/MTA10/mods/shared_logic/CClientVehicleManager.cpp:639-644 | True exactly for the thirteen emergency models. |
| VehicleModels.HasTaxiLight | branches/Analog-Control-States/MTA10/mods/shared_logic/CClientVehicleManager.cpp:646-651 | True exactly for models 420 and 438. |
| VehicleModels.HasSearchLight | branches/Analog-Control-States/MTA10/mods/shared_logic/CClientVehicleManager.cpp:653-658 | True exactly for model 497. |
| VehicleModels.HasLandingGears | branches/Analog-Control-States/MTA10/mods/shared_logic/CClientVehicleManager.cpp:660-665 | True exactly for the six aircraft with landing gear. |
| VehicleModels.HasAdjustableProperty | branches/Analog-Control-States/MTA10/mods/shared_logic/CClientVehicleManager.cpp:667-672 | True exactly for the nine models with a movable part. |
| VehicleModels.HasSmokeTrail | branches/Analog-Control-States/MTA10/mods/shared_logic/CClientVehicleManager.cpp:674-679 | True exactly for models 512 and 513. |
| VehicleModels.NoAttributeForInvalidModel | branches/Analog-Control-States/MTA10/mods/shared_logic/CClientVehicleManager.cpp:632-679 | No attribute query answers yes for an invalid model, whatever the bit table holds. |
| VehicleModels.GetRandomVariation | branches/Analog-Control-States/MTA10/mods/shared_logic/CClientVehicleManager.cpp:499-545 | Models without variants get (255, 255). The caddy, the two motorbikes and the Slamvan follow their own rules. Every other model gets a primary variant that is 255 or at most its table entry, and no secondary variant. |
| VehicleModels.CropDusterHasNoVariation | branches/Analog-Control-States/MTA10/mods/shared_logic/CClientVehicleManager.cpp:70-353 | The crop duster never gets a variant. |
| VehicleModels.SlamvanNeverDefault | branches/Analog-Control-States/MTA10/mods/shared_logic/CClientVehicleManager.cpp:527-533 | The Slamvan always gets variant 0 or 1. |
| VehicleModels.GeneralVariationCoverage | branches/Analog-Control-States/MTA10/mods/shared_logic/CClientVehicleManager.cpp:535-543 | Every primary variant the general rule allows is produced by some random draw. |
| VehicleModels.SpecialVariationCoverage | branches/Analog-Control-States/MTA10/mods/shared_logic/CClientVehicleManager.cpp:505-526 | Every variant pair the caddy and motorbike rules allow is produced by some pair of draws. |
| VehicleTypes.GetVehicleType | branches/Analog-Control-States/MTA10/mods/shared_logic/CClientVehicleManager.cpp:459-484 | The result is the first shape predicate, in the classifier's order, that holds for a valid model with model info. Every predicate earlier in the order is false. No type is returned for an invalid id, for missing model info, or when no predicate holds. |
| VehicleTypes.HasDamageModelType | branches/Analog-Control-States/MTA10/mods/shared_logic/CClientVehicleManager.cpp:687-701 | True exactly for trailer, monster truck, quad, helicopter, plane and car. |
| VehicleTypes.HasDamageModel | branches/Analog-Control-States/MTA10/mods/shared_logic/CClientVehicleManager.cpp:681-701 | True exactly when the model's type is trailer, monster truck, quad bike, heli, plane or car. Such a model is valid and has model info. |
| VehicleTypes.HasDoors | branches/Analog-Control-States/MTA10/mods/shared_logic/CClientVehicleManager.cpp:703-732 | False for the fourteen doorless models and for every model without a damage model, and true for every other model with a damage model (the default branch). A model with doors is valid. |
| VehicleTypes.HasDoorsIffType | branches/Analog-Control-States/MTA10/mods/shared_logic/CClientVehicleManager.cpp:703-732 | A model has doors exactly when its type is one of the six damage-model types and it is not one of the fourteen doorless models. |
| VehicleTypes.ConvertIndexToGameSeat | branches/Analog-Control-States/MTA10/mods/shared_logic/CClientVehicleManager.cpp:547-630 | Index 0 is always the driver's seat. |
| VehicleTypes.SeatsWithoutPassengers | branches/Analog-Control-States/MTA10/mods/shared_logic/CClientVehicleManager.cpp:553-560 | With no passengers, or an unknown count, only index 0 has a seat. |
| VehicleTypes.SeatsWithOnePassenger | branches/Analog-Control-States/MTA10/mods/shared_logic/CClientVehicleManager.cpp:562-591 | Bike-like vehicles seat indices 1 to 3 at the back. Others seat only index 1, front right. |
| VehicleTypes.SeatsWithThreePassengers | branches/Analog-Control-States/MTA10/mods/shared_logic/CClientVehicleManager.cpp:593-611 | Indices 1 to 3 are front right, rear left and rear right. |
| VehicleTypes.SeatsWithEightPassengers | branches/Analog-Control-States/MTA10/mods/shared_logic/CClientVehicleManager.cpp:613-627 | Indices 1 to 8 all board front right. |
| VehicleTypes.SeatExistsIffWithinCapacity | branches/Analog-Control-States/MTA10/mods/shared_logic/CClientVehicleManager.cpp:547-630 | An index has a seat exactly when it is at most the vehicle's highest seat index. |
| VehicleTypes.BusSeats | branches/Analog-Control-States/MTA10/mods/shared_logic/CClientVehicleManager.cpp:613-627 | The bus has eight passengers. Index 5 boards front right and index 9 has no seat. |
| VehicleRegistry.RemoveAll | branches/Analog-Control-States/MTA10/mods/shared_logic/CClientVehicleManager.cpp:735-741 | Removal takes out every occurrence of the vehicle and keeps all others. |
| VehicleRegistry.RemoveFromList | branches/Analog-Control-States/MTA10/mods/shared_logic/CClientVehicleManager.cpp:735-741 | Ignored while removal is switched off. Otherwise the vehicle is gone from the list and nothing else changes. |
| VehicleRegistry.RemoveUndoesAppend | branches/Analog-Control-States/MTA10/mods/shared_logic/CClientVehicleManager.cpp:735-741 | Removing a vehicle undoes appending it. |
| VehicleRegistry.Exists | branches/Analog-Control-States/MTA10/mods/shared_logic/CClientVehicleManager.cpp:744-756 | True exactly when the vehicle is in the list. |
| VehicleRegistry.Destroy | branches/Analog-Control-States/MTA10/mods/shared_logic/CClientVehicleManager.cpp:371 | Deleting a vehicle takes it out of the streamed-in list and leaves every other vehicle where it was. It leaves the list alone while removal is switched off and takes the vehicle out of the list otherwise. |
| VehicleRegistry.DeleteAll | branches/Analog-Control-States/MTA10/mods/shared_logic/CClientVehicleManager.cpp:364-377 | Every listed vehicle is deleted, in order. The list ends empty and removal is switched back on. A vehicle stays streamed in exactly when it was streamed in without being listed, so a registry whose streamed-in vehicles are all listed ends as empty as a new manager's. |
| VehicleRegistry.DeleteAllThenPulse | branches/Analog-Control-States/MTA10/mods/shared_logic/CClientVehicleManager.cpp:364-394 | After DeleteAll, `Exists` finds no vehicle and the next pulse visits none. |
| VehicleRegistry.GetClosest | branches/Analog-Control-States/MTA10/mods/shared_logic/CClientVehicleManager.cpp:422-442 | No result exactly when no vehicle is within the radius. Otherwise the result is the first vehicle of least distance within the radius. |
| VehicleRegistry.FirstNearestUnique | branches/Analog-Control-States/MTA10/mods/shared_logic/CClientVehicleManager.cpp:422-442 | At most one vehicle is the first nearest one. |
| VehicleRegistry.OnCreation | branches/Analog-Control-States/MTA10/mods/shared_logic/CClientVehicleManager.cpp:767-770 | The vehicle is appended to the streamed-in list and nothing else changes. |
| VehicleRegistry.OnDestruction | branches/Analog-Control-States/MTA10/mods/shared_logic/CClientVehicleManager.cpp:773-776 | The vehicle leaves the streamed-in list and every other vehicle stays. |
| VehicleRegistry.DestructionUndoesCreation | branches/Analog-Control-States/MTA10/mods/shared_logic/CClientVehicleManager.cpp:767-776 | Destruction after creation restores the registry. |
| VehicleRegistry.DestructionIdempotent | branches/Analog-Control-States/MTA10/mods/shared_logic/CClientVehicleManager.cpp:773-776 | Destroying twice is the same as destroying once. |
| VehicleRegistry.DoPulse | branches/Analog-Control-States/MTA10/mods/shared_logic/CClientVehicleManager.cpp:381-394 | Exactly the vehicles streamed in on entry are pulsed, in order, even when pulses change the list. |
| VehicleRegistry.IsVehicleLimitReached | branches/Analog-Control-States/MTA10/mods/shared_logic/CClientVehicleManager.cpp:759-764 | True exactly when the pool holds 64 or more vehicles. |
| VehicleRegistry.RefusedBeforeGamePoolFull | branches/Analog-Control-States/MTA10/mods/shared_logic/CClientVehicleManager.cpp:761-763 | The manager's limit of 64 lies below the game's pool of 110. Every count from 64 to 110 is refused, and every count below 64 is allowed. |
| LatentReceiver.Resize | branches/Custom-Animations/Shared/mods/deathmatch/logic/CLatentReceiver.cpp:131 | The buffer takes the new size, keeps the bytes that fit and zero-fills the rest. |
| LatentReceiver.BytesUsed | branches/Custom-Animations/Shared/mods/deathmatch/logic/CLatentReceiver.cpp:174 | The whole bytes needed for the bit count, computed in 32-bit arithmetic. |
| LatentReceiver.CompleteTail | branches/Custom-Animations/Shared/mods/deathmatch/logic/CLatentReceiver.cpp:162-192 | Another category is dropped. A delivered packet carries the bytes after its 5-byte header. Delivery and an unknown category free the slot. A size mismatch is an error and leaves the slot as it was. |
| LatentReceiver.ApplyHead | branches/Custom-Animations/Shared/mods/deathmatch/logic/CLatentReceiver.cpp:119-133 | A head is refused while a transfer is open, or when it announces more than 100 MiB. A chunk that is not a head leaves the slot alone. |
| LatentReceiver.OnReceive | branches/Custom-Animations/Shared/mods/deathmatch/logic/CLatentReceiver.cpp:70-193 | Gives each error exactly under its condition: an invalid special type, a head while active, a wrong id. A cancel frees the slot exactly when the ids match. Only a tail can complete a transfer. |
| LatentReceiver.ReceivePreservesValid | branches/Custom-Animations/Shared/mods/deathmatch/logic/CLatentReceiver.cpp:127-156 | The write position never passes the end of a buffer of allowed size. |
| LatentReceiver.HeadOpensSlot | branches/Custom-Animations/Shared/mods/deathmatch/logic/CLatentReceiver.cpp:119-156 | A head on a free slot opens it with the announced id, category, rate and size. The write position then sits just past the head's own bytes. |
| LatentReceiver.OversizeHeadRefused | branches/Custom-Animations/Shared/mods/deathmatch/logic/CLatentReceiver.cpp:124-125 | A head announcing more than 100 MiB is refused and the slot is unchanged. |
| LatentReceiver.ChunkFitsBuffer | branches/Custom-Animations/Shared/mods/deathmatch/logic/CLatentReceiver.cpp:149-153 | A matching chunk is refused for overflow exactly when it would run past the buffer. A tail is also refused exactly when it would not end at the buffer's end. |
| LatentReceiver.BodyAppends | branches/Custom-Animations/Shared/mods/deathmatch/logic/CLatentReceiver.cpp:155-156 | A plain chunk that fits lands right after the bytes already written. |
| LatentReceiver.PacketTailChecksSize | branches/Custom-Animations/Shared/mods/deathmatch/logic/CLatentReceiver.cpp:164-184 | A packet tail that fills the buffer is delivered exactly when the announced bit count needs as many bytes as follow the header. |
| LatentReceiver.ShortPacketRejected | branches/Custom-Animations/Shared/mods/deathmatch/logic/CLatentReceiver.cpp:174-177 | A buffer shorter than 5 bytes never passes the size check, because the unsigned difference wraps. |
| LatentReceiver.OtherCategoryTailFreesSlot | branches/Custom-Animations/Shared/mods/deathmatch/logic/CLatentReceiver.cpp:185-191 | A tail of any other category frees the slot and delivers nothing. |
| LatentReceiver.AfterHeadCompletes | branches/Custom-Animations/Shared/mods/deathmatch/logic/CLatentReceiver.cpp:135-192 | The chunks after the head fill the rest of the buffer and complete the transfer. |
| LatentReceiver.TransferRebuildsMessage | branches/Custom-Animations/Shared/mods/deathmatch/logic/CLatentReceiver.cpp:70-193 | A whole transfer received on a free slot rebuilds the sent message in the buffer. |
| LatentReceiver.TransferDeliversPacket | branches/Custom-Animations/Shared/mods/deathmatch/logic/CLatentReceiver.cpp:162-191 | Round trip: a well-formed packet transfer is delivered with the packet id, the bit count and the payload that were sent, and the slot is free again. |
| SplitString.FromCString | Shared/sdk/SString.h:35-37 | A null pointer gives the empty string and any other gives its text. |
| SplitString.NullTextSplitsToEmpty | Shared/sdk/SString.h:35-37 | A null C string splits into empty parts only: one, or as many as the minimum asks for. |
| SplitString.Find | Shared/sdk/SString.h:173 | Finds the first occurrence of the delimiter at or after the cursor, or reports that there is none. |
| SplitString.Split | Shared/sdk/SString.h:159-187 | Gives at least one part, and at least the minimum number of parts. |
| SplitString.JoinInvertsSplit | Shared/sdk/SString.h:159-184 | Joining the parts with the delimiter gives back the input, for every maximum. |
| SplitString.SplitCountsMatches | Shared/sdk/SString.h:170-184 | Without a maximum there is one more part than there are non-overlapping delimiter matches. |
| SplitString.SplitRespectsMaximum | Shared/sdk/SString.h:174 | With a maximum there are at most that many parts. |
| SplitString.NoDelimiterBeforeLastPart | Shared/sdk/SString.h:172-184 | No part but the last contains the delimiter. |
| SplitString.SplitIsPaddedPieces | Shared/sdk/SString.h:185-186 | The result is the parts found, followed by empty parts up to the minimum. |
| SplitString.MaximumOneKeepsInput | Shared/sdk/SString.h:174-178 | A maximum of one gives the whole input as the only part. |
| BitStream.ReadWriteBits | branches/Custom-Vehicle-Sirens/Shared/sdk/net/SyncStructures.h:85-107 | Reading back an n-bit write gives the value's low n bits. |
| BitStream.ReadBitsIsWritten | branches/Custom-Vehicle-Sirens/Shared/sdk/net/SyncStructures.h:81-84 | Every bit pattern a read can meet is the write of the value it reads. |
| SyncStructures.IntegerRoundTrip | branches/Custom-Vehicle-Sirens/Shared/sdk/net/SyncStructures.h:78-108 | An integer comes back as its low bits, so it is unchanged when it fits the field. |
| SyncStructures.WriteInteger | branches/Custom-Vehicle-Sirens/Shared/sdk/net/SyncStructures.h:85-88 | An n-bit field writes exactly n bits. |
| SyncStructures.ReadInteger | branches/Custom-Vehicle-Sirens/Shared/sdk/net/SyncStructures.h:81-84 | The read fails exactly when fewer than n bits remain, and a value read fits in n bits. |
| SyncStructures.ReadBodypart | branches/Custom-Vehicle-Sirens/Shared/sdk/net/SyncStructures.h:1173-1181 | A successful read gives a bodypart from 3 to 10. A failed read gives 0 and consumes nothing. |
| SyncStructures.BodypartBits | branches/Custom-Vehicle-Sirens/Shared/sdk/net/SyncStructures.h:1182-1193 | The three bits sent are the bodypart minus 3, modulo 8, even when the unsigned subtraction wraps. |
| SyncStructures.WriteBodypart | branches/Custom-Vehicle-Sirens/Shared/sdk/net/SyncStructures.h:1182-1193 | A bodypart always takes exactly three bits. |
| SyncStructures.BodypartRoundTrip | branches/Custom-Vehicle-Sirens/Shared/sdk/net/SyncStructures.h:1169-1199 | Bodyparts 3 to 10 survive the trip. Any other value comes back reduced modulo 8 into that range. |
| SyncStructures.CompressedByteRoundTrip | branches/Custom-Vehicle-Sirens/Shared/sdk/net/SyncStructures.h:1758-1770 | Every byte survives the compressed encoding. |
| SyncStructures.ReadCompressedByte | branches/Custom-Vehicle-Sirens/Shared/sdk/net/SyncStructures.h:1758-1770 | The read fails exactly when the stream is empty or a clear flag bit is not followed by 8 more bits. A set flag bit reads 0 from one bit, and a clear one consumes nine bits. |
| SyncStructures.ReadAlpha | branches/Custom-Vehicle-Sirens/Shared/sdk/net/SyncStructures.h:1773-1781 | The read fails exactly when the compressed byte cannot be read, and a set flag bit alone means fully opaque (255). |
| SyncStructures.WriteAlpha | branches/Custom-Vehicle-Sirens/Shared/sdk/net/SyncStructures.h:1781-1786 | Full opacity costs one bit. |
| SyncStructures.AlphaRoundTrip | branches/Custom-Vehicle-Sirens/Shared/sdk/net/SyncStructures.h:1771-1789 | Every alpha value survives the trip. |
| SyncStructures.ReadRange | branches/Custom-Vehicle-Sirens/Shared/sdk/net/SyncStructures.h:2056-2064 | A read range value always lies in [low, hi]. The read fails only when the stream runs out. |
| SyncStructures.RangeRoundTrip | branches/Custom-Vehicle-Sirens/Shared/sdk/net/SyncStructures.h:2056-2071 | A range field comes back clamped into its range. |
| SyncStructures.RangeFitsHeatHaze | branches/Custom-Vehicle-Sirens/Shared/sdk/net/SyncStructures.h:2076-2081 | The heat-haze ranges fit their bit widths and C types. |
| SyncStructures.NormalizeKeepsInRange | branches/Custom-Vehicle-Sirens/Shared/sdk/net/SyncStructures.h:2086-2097 | Settings already inside their ranges are not changed by the trip. |
| SyncStructures.HeatHazeRoundTrip | branches/Custom-Vehicle-Sirens/Shared/sdk/net/SyncStructures.h:2042-2103 | Heat-haze settings come back with every range field clamped and every other field unchanged. |
| SyncStructures.ReadHeatHaze | branches/Custom-Vehicle-Sirens/Shared/sdk/net/SyncStructures.h:2073-2084 | The read fails exactly when fewer than 79 bits remain. A successful read consumes 79 bits and gives settings with every range field already in its range. |
| SyncStructures.WriteHeatHaze | branches/Custom-Vehicle-Sirens/Shared/sdk/net/SyncStructures.h:2086-2097 | The settings always take 79 bits: two bytes, the six range fields of 10, 10, 11, 11, 10 and 10 bits, and the building flag. |
| SyncStructures.SirenAddWithoutOverride | branches/Custom-Vehicle-Sirens/Shared/sdk/net/SyncStructures.h:1541-1562 | Without override only one bit travels, and Read reports false. |
| SyncStructures.SirenAddRoundTrip | branches/Custom-Vehicle-Sirens/Shared/sdk/net/SyncStructures.h:1539-1582 | With override every field survives, whatever the structure held before. |
| SyncStructures.ReadSirenAdd | branches/Custom-Vehicle-Sirens/Shared/sdk/net/SyncStructures.h:1541-1556 | Read reports true exactly when the override bit is set and the two bytes after it are present. Then the override flag is set. Otherwise the count and the four flags keep their previous values. |
| SyncStructures.WriteSirenAdd | branches/Custom-Vehicle-Sirens/Shared/sdk/net/SyncStructures.h:1558-1570 | Without override a single false bit is sent. With override the set bit is followed by two bytes and four flags, 21 bits in all. |
| SyncStructures.Sections | branches/Custom-Vehicle-Sirens/Shared/sdk/net/SyncStructures.h:730-775 | Write emits each of the six optional sections exactly when its flag is set, in the fixed order position, rotation, velocity, turn velocity, health, trailer. |
| SyncStructures.HasChangedIffSections | branches/Custom-Vehicle-Sirens/Shared/sdk/net/SyncStructures.h:776-784 | A vehicle counts as changed exactly when its sync carries at least one optional section. |
| SyncStructures.HasChanged | branches/Custom-Vehicle-Sirens/Shared/sdk/net/SyncStructures.h:776-784 | The vehicle counts as changed exactly when at least one of the six optional sections is flagged. |
| SyncStructures.StateFlagsDoNotCount | branches/Custom-Vehicle-Sirens/Shared/sdk/net/SyncStructures.h:776-797 | The engine, derailed and in-water flags do not count as a change. |
| SyncStructures.UnoccupiedFlagsRoundTrip | branches/Custom-Vehicle-Sirens/Shared/sdk/net/SyncStructures.h:679-687 | The nine flags survive the trip. |
| SyncStructures.ReadUnoccupiedFlags | branches/Custom-Vehicle-Sirens/Shared/sdk/net/SyncStructures.h:683 | Reading the nine flag bits fails exactly when fewer than nine bits remain. |
| SyncStructures.WriteUnoccupiedFlags | branches/Custom-Vehicle-Sirens/Shared/sdk/net/SyncStructures.h:734 | The flags always take exactly nine bits. |
| SyncDamage.WritePart | branches/Custom-Vehicle-Sirens/Shared/sdk/net/SyncStructures.h:1247-1265 | In delta sync an unchanged element is one false bit, and a changed one is a true bit followed by its state. In full sync only the state is sent. |
| SyncDamage.ReadPart | branches/Custom-Vehicle-Sirens/Shared/sdk/net/SyncStructures.h:1225-1244 | In delta sync a false or missing flag marks the element unchanged and keeps its old state. Full sync fails exactly when the state bits are missing, and marks the element changed. |
| SyncDamage.WritePartState | branches/Custom-Vehicle-Sirens/Shared/sdk/net/SyncStructures.h:1247-1266 | In delta sync, or with a non-empty field, every element costs at least one bit. Its round trip is PartStateRoundTrip. |
| SyncDamage.ReadPartState | branches/Custom-Vehicle-Sirens/Shared/sdk/net/SyncStructures.h:1225-1245 | A successful read returns one element per element of the structure. Its round trip is PartStateRoundTrip. |
| SyncDamage.PartStateRoundTrip | branches/Custom-Vehicle-Sirens/Shared/sdk/net/SyncStructures.h:1209-1276 | Reading back what Write sent restores every changed flag and the low bits of every state sent. Skipped elements keep the reader's previous state. |
| SyncDamage.ReceivedElements | branches/Custom-Vehicle-Sirens/Shared/sdk/net/SyncStructures.h:1225-1244 | Element by element, what the reader holds is what it holds for that element sent alone. |
| SyncDamage.FullSyncMarksAllChanged | branches/Custom-Vehicle-Sirens/Shared/sdk/net/SyncStructures.h:1239-1240 | A successful full-sync read marks every element changed. |
| SyncDamage.FullSyncSize | branches/Custom-Vehicle-Sirens/Shared/sdk/net/SyncStructures.h:1247-1266 | In full sync every element takes exactly its field width. |
| SyncDamage.DeltaSyncSize | branches/Custom-Vehicle-Sirens/Shared/sdk/net/SyncStructures.h:1247-1266 | In delta sync every element takes one flag bit, and only changed elements add their state bits. |
| SyncDamage.DisabledGroupsKept | branches/Custom-Vehicle-Sirens/Shared/sdk/net/SyncStructures.h:1293-1336 | A disabled group is neither read nor changed. |
| SyncDamage.NothingEnabledReadsNothing | branches/Custom-Vehicle-Sirens/Shared/sdk/net/SyncStructures.h:1293-1336 | With every group disabled the read succeeds, consumes nothing and changes nothing. |
| SyncDamage.FirstGroupFailureFails | branches/Custom-Vehicle-Sirens/Shared/sdk/net/SyncStructures.h:1295-1303 | A failing door read fails the whole read. |
| SyncDamage.WheelFailureFails | branches/Custom-Vehicle-Sirens/Shared/sdk/net/SyncStructures.h:1305-1313 | Once the doors are read, or skipped because they are disabled, a failing wheel read fails the whole read. |
| SyncDamage.PanelFailureFails | branches/Custom-Vehicle-Sirens/Shared/sdk/net/SyncStructures.h:1315-1323 | Once the doors and wheels are read or skipped, a failing panel read fails the whole read. |
| SyncDamage.LightFailureFails | branches/Custom-Vehicle-Sirens/Shared/sdk/net/SyncStructures.h:1325-1333 | Once the first three groups are read or skipped, a failing light read fails the whole read. |
| SyncDamage.ReadDamageSteps | branches/Custom-Vehicle-Sirens/Shared/sdk/net/SyncStructures.h:1293-1336 | When every group is read or skipped successfully, the read succeeds with the four groups and the reader after the last group. |
| SyncDamage.ReadDamage | branches/Custom-Vehicle-Sirens/Shared/sdk/net/SyncStructures.h:1293-1336 | A successful read gives each enabled group as many elements as the reader's part-state structure, and each disabled group as many as the data held. Its round trip is DamageRoundTrip. |
| SyncDamage.WriteDamage | branches/Custom-Vehicle-Sirens/Shared/sdk/net/SyncStructures.h:1338-1371 | With no group enabled nothing is written. In delta sync every element of an enabled group costs at least one bit. Its round trip is DamageRoundTrip. |
| SyncDamage.DamageRoundTrip | branches/Custom-Vehicle-Sirens/Shared/sdk/net/SyncStructures.h:1278-1392 | With the same configuration, each enabled group comes back as the part-state round trip describes, and each disabled group keeps the reader's data. |
| SyncDamage.DoorStateSurvives | branches/Custom-Vehicle-Sirens/Shared/sdk/net/SyncStructures.h:1296-1303 | A door sent as changed, or sent in full sync, comes back flagged changed with its 3-bit state. |
| RadarMap.ClampAxis | branches/1.1.1/MTA10/mods/deathmatch/logic/CRadarMap.cpp:585-609 | The map keeps its size and either reaches the start edge or is pinned to the end edge. Either it reaches past the end edge or it is pinned to the start edge. |
| RadarMap.Setup | branches/1.1.1/MTA10/mods/deathmatch/logic/CRadarMap.cpp:515-617 | Zoom, mode, flags and screen size stay as they were. In free mode without zoom the movement offsets are reset. A zoomed map spans exactly the map size on both axes. |
| RadarMap.ZoomedMapMeetsEdges | branches/1.1.1/MTA10/mods/deathmatch/logic/CRadarMap.cpp:541-561 | A zoomed map never leaves a gap on the side it was pushed away from, in either mode. |
| RadarMap.Initial | branches/1.1.1/MTA10/mods/deathmatch/logic/CRadarMap.cpp:37-63 | The map starts hidden, in free mode, at zoom 1, with no movement. |
| RadarMap.ZoomIn | branches/1.1.1/MTA10/mods/deathmatch/logic/CRadarMap.cpp:620-627 | Doubles a zoom of at most 4 and otherwise changes nothing. |
| RadarMap.Shrink | branches/1.1.1/MTA10/mods/deathmatch/logic/CRadarMap.cpp:638-639 | Dividing by 1.7 and truncating moves an offset toward zero without changing its sign. |
| RadarMap.ZoomOut | branches/1.1.1/MTA10/mods/deathmatch/logic/CRadarMap.cpp:630-654 | Halves a zoom of at least 2. Still zoomed, the offsets shrink. At zoom 1 the offsets are reset and all four movements stop. |
| RadarMap.MoveNorth | branches/1.1.1/MTA10/mods/deathmatch/logic/CRadarMap.cpp:657-674 | Nothing changes when attached or unzoomed. A map at the top edge is pinned there, and otherwise the vertical offset grows by 20. |
| RadarMap.MoveSouth | branches/1.1.1/MTA10/mods/deathmatch/logic/CRadarMap.cpp:678-695 | Nothing changes when attached or unzoomed. A map at the bottom edge is pinned there, and otherwise the vertical offset drops by 20. |
| RadarMap.MoveEast | branches/1.1.1/MTA10/mods/deathmatch/logic/CRadarMap.cpp:699-716 | Nothing changes when attached or unzoomed. A map at the right edge is pinned there, and otherwise the horizontal offset grows by 20. |
| RadarMap.MoveWest | branches/1.1.1/MTA10/mods/deathmatch/logic/CRadarMap.cpp:720-737 | Nothing changes when attached or unzoomed. A map at the left edge is pinned there, and otherwise the horizontal offset drops by 20. |
| RadarMap.SetAttached | branches/1.1.1/MTA10/mods/deathmatch/logic/CRadarMap.cpp:739-751 | Switches mode and keeps the zoom. |
| RadarMap.InitialInv | branches/1.1.1/MTA10/mods/deathmatch/logic/CRadarMap.cpp:60-63 | The starting state has zoom 1 and no movement offset. |
| RadarMap.ZoomKeepsInv | branches/1.1.1/MTA10/mods/deathmatch/logic/CRadarMap.cpp:620-654 | Zooming keeps the zoom in {1, 2, 4, 8} and the movement offsets zero at zoom 1. |
| RadarMap.MoveVerticallyKeepsInv | branches/1.1.1/MTA10/mods/deathmatch/logic/CRadarMap.cpp:657-695 | Moving north or south keeps that invariant. |
| RadarMap.MoveHorizontallyKeepsInv | branches/1.1.1/MTA10/mods/deathmatch/logic/CRadarMap.cpp:699-737 | Moving east or west keeps that invariant. |
| RadarMap.AttachKeepsInv | branches/1.1.1/MTA10/mods/deathmatch/logic/CRadarMap.cpp:739-742 | Switching mode keeps that invariant. |
| RadarMap.ZoomInOutFromOne | branches/1.1.1/MTA10/mods/deathmatch/logic/CRadarMap.cpp:620-654 | Zooming in and out again from zoom 1 comes back to zoom 1 with no movement and every movement stopped. |
| RadarMap.InternalSetRadarEnabled | branches/1.1.1/MTA10/mods/deathmatch/logic/CRadarMap.cpp:434-453 | Showing saves the chat and debug visibility, then hides them along with the HUD and the game radar. Hiding restores what was saved. |
| RadarMap.SetRadarEnabled | branches/1.1.1/MTA10/mods/deathmatch/logic/CRadarMap.cpp:410-419 | Always stores the new flag. The screen switches only when "enabled or forced" changes, and then to the new value. |
| RadarMap.SetForcedState | branches/1.1.1/MTA10/mods/deathmatch/logic/CRadarMap.cpp:422-431 | Likewise for the forced flag. |
| RadarMap.VisibilityKeepsSync | branches/1.1.1/MTA10/mods/deathmatch/logic/CRadarMap.cpp:410-453 | The HUD and game radar are off, and chat and debug hidden, exactly while the map should show. |
| RadarMap.OpenCloseRestoresScreen | branches/1.1.1/MTA10/mods/deathmatch/logic/CRadarMap.cpp:434-453 | Opening the map and closing it again gives back the chat and debug visibility the player had. |
| RadarMap.ForcedMapIgnoresPlayer | branches/1.1.1/MTA10/mods/deathmatch/logic/CRadarMap.cpp:410-419 | While a script forces the map, the player's switch changes nothing on screen. |
| RadarMap.CreateMarkerTextures | branches/1.1.1/MTA10/mods/deathmatch/logic/CRadarMap.cpp:214-237 | Creates the three shapes, then one icon per sprite, in order. |
| RadarMap.IconFileName | branches/1.1.1/MTA10/mods/deathmatch/logic/CRadarMap.cpp:230-234 | Icon n loads the file named by n in two decimal digits, then ".png". |
| RadarMap.FileNamesDistinct | branches/1.1.1/MTA10/mods/deathmatch/logic/CRadarMap.cpp:219-234 | No two textures of the created list are loaded from the same file. |
| RadarMap.MarkerIndex | branches/1.1.1/MTA10/mods/deathmatch/logic/CRadarMap.cpp:249-276 | A plain marker gets a shape index. A sprite s gets index s + 2, computed in unsigned arithmetic. |
| RadarMap.GetMarkerTexture | branches/1.1.1/MTA10/mods/deathmatch/logic/CRadarMap.cpp:243-284 | A sprite marker is white at scale 1, and a plain marker keeps its colour at a quarter of its scale. There is a texture exactly when the index is inside the list, and it is the list entry at that index. |
| RadarMap.SpriteFindsItsIcon | branches/1.1.1/MTA10/mods/deathmatch/logic/CRadarMap.cpp:214-259 | Against the created list, every sprite from 1 to 63 gets its own icon. |
| RadarMap.PlainMarkerShape | branches/1.1.1/MTA10/mods/deathmatch/logic/CRadarMap.cpp:260-275 | A plain marker more than 4 units below the player is a down triangle, one more than 4 units above is an up triangle, and otherwise it is a square. |
| RadarMap.UnknownSpriteHasNoTexture | branches/1.1.1/MTA10/mods/deathmatch/logic/CRadarMap.cpp:280-283 | A sprite past 63 has no texture, unless it is large enough for the index to wrap. |
| RadarMap.LargestSpritesWrap | branches/1.1.1/MTA10/mods/deathmatch/logic/CRadarMap.cpp:252-257 | Sprites 0xFFFFFFFE and 0xFFFFFFFF wrap around to the square and up-triangle textures. |

## Left out

- `RestreamVehicles`, `Get`/`GetSafe` and the XRef lookups: these need entity ids and the game's streaming, which are not modelled.
- `RandomizeRandomSeed` and `rand()`: the random draws are parameters of `GetRandomVariation`.
- The vehicle manager's constructor and destructor: only the variant table they fill is modelled, as a constant table.
- `IsVehicleLimitReached`: the pool's vehicle count is a parameter.
- `VehicleRegistry.Destroy`: the vehicle's destructor is not part of this model. Its effect on the manager follows the documented lifecycle: the vehicle asks to be removed from the list, and it leaves the streamed-in list when its game object goes.
- The distance to a vehicle is a parameter of `GetClosest`. Its floating-point value is taken as a real number.
- `VehicleRegistry.DoPulse`: what a pulse does to the registry is a parameter.
- `SplitString.Split`: requires a non-empty delimiter. With an empty delimiter and no maximum the source loops forever.
- `SplitString`: the C-string view of the parts is not modelled. Parts are the text between matches, which agrees with the source for inputs without NUL characters.
- `Format`, `vFormat` and the `SString` methods that are only declared have no body to model.
- The bit stream is modelled abstractly, least significant bit first. The real library's byte layout, alignment and compression are not modelled. `AlignReadToByteBoundary` and the byte-level header read of a latent chunk are folded into the `Chunk` datatype.
- `BitStream.ReadBit` past the end of the stream gives false. The library's actual behaviour there is not part of this model.
- `SyncStructures.WriteCompressedByte` follows the encoding described by the structure's own comment: a flag bit, then the full byte unless it is zero. The library's real compressed-byte format is not part of this model.
- `SyncStructures.ReadBodypart` assumes the upper bytes of the 32-bit field are zero before the read.
- `SyncStructures.ReadHeatHaze` returns `None` on failure. The fields the source has already overwritten when a later field fails are not reported.
- `SyncStructures`: only unsigned `SIntegerSync` instances are modelled. Sign extension of signed fields is left out.
- `SyncDamage.ReadPartState`: returns `None` on failure and so does not show which elements were already overwritten. In the damage read that data is discarded anyway.
- `SyncDamage.ReadDamage`: returns `None` when a group fails. The source has by then already copied each earlier group that read successfully into its data, and those partial updates are not reported.
- `SyncDamage`: the sizes MAX_DOORS, MAX_WHEELS, MAX_PANELS and MAX_LIGHTS come from a game header that is not part of this model. Each group is a sequence, and the reader's arrays give the lengths.
- The floating-point sync structures are left out because they are rounding and interpolation code: `SFloatSync`, `SFloatAsBitsSync`, position, rotation, velocity, turret, aim, door ratio, handling and weapon properties. The remaining fields of the unoccupied-vehicle sync are left out with them.
- `LatentReceiver`: the values of FLAG_HEAD, FLAG_TAIL, FLAG_CANCEL and CATEGORY_PACKET are not modelled. The special flag is already decoded in `Chunk`, and the packet category is a parameter.
- `LatentReceiver`: disconnecting the remote and dispatching the packet become outcomes (`Error`, `Delivered`). The packet's bit stream is not modelled as a resource.
- `LatentReceiver.CompleteTail`: the source allocates the packet's bit stream (CLatentReceiver.cpp line 167) before it checks the buffer size. On a mismatch it returns at lines 176-177 without freeing the stream, so every mismatched packet leaks one stream. The model's `Error(BufferSizeMismatch)` does not model this allocation or the leak.
- `LatentReceiver`: the write position cannot wrap, because a valid slot's buffer is at most 100 MiB. The model's 32-bit write position keeps that bound as an invariant.
- `RadarMap.Setup`: the float projection of SetupMapVariables is a parameter, and so is the local player's position. The map size `height * zoom` is taken as exact, although the source converts it to `float`.
- `RadarMap.Shrink`: divides by the real 1.7, not by the nearest single-precision float. The float comparisons in `GetMarkerTexture` are likewise taken over the reals.
- `RadarMap`: `DoRender`, `DoPulse` with key handling, `CalculateEntityOnScreenPosition`, the help texts, loading the texture files, and key-bind creation are rendering and input code. Only the order and file names of the created textures are modelled.
- `RadarMap`: the movement flags are set by input handling, which is not modelled. Only `ZoomOut` clears them here.
- `RadarMap.IsRadarShowing`: also depends on loaded images, the console and the menu. `Showing` models only the enabled/forced part.
- `RadarMap.MarkerLimit`: RADAR_MARKER_LIMIT is defined in a header that is not part of this model. It is taken as 63, the range the sprite comment in `GetMarkerTexture` gives.
- `RadarMap`: integer overflow of the movement offsets is not modelled.
- `CConnectManager.cpp`, `client.h` and `CLuaTimer.h` are not part of this model: they hold network and GUI plumbing, an interface without logic, and accessors.
