# shop_crm_system core, modelled in Dafny

This project models the core of a multi-tenant shop CRM backend: a Django REST service in which
each store (tenant) has workers, a product catalogue and a warehouse. It covers the following parts.

- **The warehouse inventory ledger** (`warehouse/models.py`, `warehouse/serializers.py`,
  `warehouse/views.py`). Stock rows hold the balance of one product at one branch. Stock movements
  (IN/OUT) are an append-only log. Creating a movement validates it against the caller's store and
  the current balance, then changes the balance by the signed quantity. The model also covers the
  soft deletes of categories and products and the tenant filtering of every listing.
- **Warehouse schema migration 0003**. It adds warehouses, widens the movement types with
  TRANSFER, drops the movement branch and requires each stock row to sit at exactly one location.
- **Accounts and permissions** (`accaunt/models.py`, `accaunt/permissions.py`,
  `accaunt/serializers.py`, `accaunt/views.py`):
  - the user manager, the phone field validator and the user's display name;
  - role and extra permissions, and the permission classes built on them;
  - registration, the role and status guards of the worker serializers, and the permission-override
    update (`{"added": [...], "removed": [...]}` relative to the role's defaults);
  - the worker listing and the activate, deactivate and destroy actions.
- **Account data migrations 0004 and 0005**. 0004 renames `sotuvchi`→`seller`,
  `deactive`→`ishdan_ketgan` and `sklad`→`ombor`. 0005 replaces the override object by the full
  list of permission codes. Both have a reverse direction.
- **The exception handler** (`config/exceptions.py`). It replaces a plain `{"detail": ...}` body by
  an Uzbek message chosen by status code.

Files, one module each:

| file | module | models |
|---|---|---|
| `wrappers.dfy` | `Wrappers` | `Option`, `Result` |
| `codes.dfy` | `Codes` | Python's `sorted()` on a set of strings (lexicographic order, a strictly sorted list) |
| `warehouse_models.dfy` | `WarehouseModels` | movement types, stock keys, the quantity column, balances |
| `warehouse_serializers.dfy` | `WarehouseSerializers` | movement, stock, category and product validation |
| `warehouse_views.dfy` | `WarehouseViews` | the `Ledger` and `Catalog` classes, log replay, listings |
| `warehouse_schema_v3.dfy` | `WarehouseSchemaV3` | migration 0003 and its constraints |
| `account_models.dfy` | `AccountModels` | users, the `UserManager` and `Worker` classes, grants, display name |
| `account_permissions.dfy` | `AccessChecks` | the DRF permission classes |
| `account_serializers.dfy` | `AccountSerializers` | registration, role and status guards, the override update |
| `account_views.dfy` | `AccountViews` | worker listing and status actions |
| `migration_0004.dfy` | `Migration0004` | the rename migration over an array of worker rows |
| `migration_0005.dfy` | `Migration0005` | the permissions-list migration and its reverse |
| `error_messages.dfy` | `ErrorMessages` | the message table and the handler |

Modelling choices:

- Quantities are integers counting thousandths, because the column is `numeric(14,3)`. The column's
  range is `FitsQuantityColumn`.
- Database tables are maps from ids or keys to rows. In the data migrations they are arrays of rows,
  and the bulk `.update()` calls are `forall` statements.
- What a view reads from the request (the caller's worker and store, the HTTP method) is a parameter.

Some observations the proofs make precise:

- A caller without a store skips every tenant check of movement validation
  (`NoStoreSkipsTenantCheck`).
- A validated IN movement can push a balance past the column's range
  (`ValidatedInCanOverflowColumn`).
- Two OUT movements validated against the same balance can overdraw it
  (`StaleValidationOverdraws`). Nothing in the movement view locks the stock row between the
  check and the update.
- Setting or deleting a stock row by hand breaks the identity "balance = INs − OUTs" of the
  movement log (`ManualSetBreaksLedger`, `ManualDeleteBreaksLedger`).
- A soft-deleted category's name stays taken in its store (`SoftDeletedNameStillTaken`).
- Migration 0003 forgets which branch an existing movement was at (`MigrationForgetsBranch`).
- The unique constraint on stock rows alone admits rows with no location; only the check
  constraint excludes them (`UniqueAloneAdmitsLocationlessRows`).
- The status the worker views write, `deactive`, is not one of the status choices that migration
  0004 installs (`DeactiveOutsideChoices`, `DeactiveNotAcceptedByStatusField`).
- `destroy` deactivates an owner, which `deactivate` refuses to do (`DestroyDeactivatesOwner`).
- The reverse of migration 0004 turns a pre-existing `ombor` into `sklad`
  (`RoundTripLosesExistingNewCode`).
- Migration 0005's round trip drops a grant of a code that the role already has
  (`RedundantGrantDropped`). Overrides written by the permission update always survive it
  (`UpdatedOverrideRoundTrips`).
- The phone regex on its own accepts a trailing newline; the field's length limit rejects it
  (`RegexAloneAcceptsTrailingNewline`).

Where the source's layers disagree, the model follows the code each layer runs:

- `accaunt/models.py` declares the worker's role as a foreign key to `Role`, with permissions as
  many-to-many relations.
  - `GetPermissions` and `HasPermission` model that schema.
  - `accaunt/permissions.py` is read as comparing the role's code. `AccessChecks.RoleCode` gives
    that code.
- The serializers, views and migrations treat the role as a string and `extra_permissions` as a
  JSON object. The `Worker` class models that form.

## Model

| member | source | states |
|---|---|---|
| WarehouseModels.ParseMovementType | warehouse/models.py:40-42 | exactly the codes "in" and "out" name a movement type, and each type has one code |
| WarehouseModels.MovementTypeCode | warehouse/models.py:40-42 | the code stored for a type parses back to that type (round trip) |
| WarehouseModels.Balance | warehouse/views.py:477-486 | a missing stock row has balance 0; an existing row has its stored quantity |
| WarehouseSerializers.ValidateQuantity | warehouse/serializers.py:397-400 | a quantity is accepted iff it fits numeric(14,3) and is positive; an in-range quantity ≤ 0 gets the "must be > 0" error |
| WarehouseSerializers.ValidateMovement | warehouse/serializers.py:402-433 | a movement is accepted iff it is admissible: same store for product and branch when the caller has a store, and for OUT an existing stock row holding at least the quantity. Tenant errors need a store, IN never fails on stock, and a missing row is reported only for OUT |
| WarehouseSerializers.NoStoreSkipsTenantCheck | warehouse/serializers.py:403-412 | without a store in context, a positive in-range IN of any product at any branch is accepted |
| WarehouseSerializers.ValidateStockCreate | warehouse/serializers.py:274-302 | a stock row is created iff the tenant checks pass, the quantity fits and no row exists for (product, branch); the initial quantity defaults to 0. A quantity out of range is reported first. A duplicate (product, branch) is reported next, by the unique-together validator that warehouse/models.py:202 gives the serializer, before `validate`'s tenant checks run |
| WarehouseSerializers.ValidateStockUpdate | warehouse/serializers.py:305-313 | an update is accepted iff the given quantity fits the column; an omitted quantity is kept |
| WarehouseSerializers.ValidateCategoryNameOnCreate | warehouse/serializers.py:82-89 | an accepted name is used by no category of the store, whether active or soft-deleted; a rejection names a clash |
| WarehouseSerializers.ValidateCategoryNameOnUpdate | warehouse/serializers.py:102-110 | a rename is accepted iff no other category of the same store has that name |
| WarehouseSerializers.CategoryCreateKeepsNamesUnique | warehouse/serializers.py:82-89 | adding a category whose name was accepted keeps (store, name) unique |
| WarehouseSerializers.CategoryRenameKeepsNamesUnique | warehouse/serializers.py:102-110 | an accepted rename keeps (store, name) unique |
| WarehouseSerializers.ValidateBarcodeOnCreate | warehouse/serializers.py:186-195 | an empty or missing barcode becomes null. A non-empty barcode is kept unchanged iff it is unused in the caller's store, and a rejection names the clash |
| WarehouseSerializers.ValidateBarcodeOnUpdate | warehouse/serializers.py:219-229 | an empty or missing barcode becomes null. A non-empty barcode is kept unchanged iff no other product of the instance's store has it; the product's own barcode does not count as a clash |
| WarehouseSerializers.ProductCreateKeepsBarcodesUnique | warehouse/serializers.py:186-195 | adding a product with an accepted barcode keeps non-null barcodes unique per store |
| WarehouseSerializers.ProductRebarcodeKeepsBarcodesUnique | warehouse/serializers.py:219-229 | an accepted barcode change keeps non-null barcodes unique per store |
| WarehouseSerializers.ValidateCategoryOnCreate | warehouse/serializers.py:177-184 | an omitted category is accepted as no category, whatever the store. With a store in context, a sent category is accepted iff it belongs to that store, and a sent null is its own error. Without a store, whatever is sent is accepted |
| WarehouseSerializers.ValidateCategoryOnUpdate | warehouse/serializers.py:212-217 | a category is accepted iff it is null or belongs to the product's store |
| WarehouseViews.Delta | warehouse/views.py:482-485 | for a positive quantity, a movement raises the balance iff it is IN |
| WarehouseViews.ApplyTo | warehouse/views.py:477-486 | a movement changes only its own stock key, by its signed quantity, creating the row at 0 when missing |
| WarehouseViews.BalanceIsInsMinusOuts | warehouse/models.py:212-219 | replaying a log of positive movements gives each key the sum of its INs minus the sum of its OUTs |
| WarehouseViews.ReplayKeys | warehouse/views.py:477-481 | after a replay, the stock rows are exactly the keys some movement touched |
| WarehouseViews.SufficientKeepsNonNegative | warehouse/serializers.py:414-432 | a movement that passes the balance check keeps every balance non-negative |
| WarehouseViews.CheckedLogNonNegative | warehouse/serializers.py:414-432 | a log whose every movement passed the check, in order, replays to non-negative balances |
| WarehouseViews.MovementOf | warehouse/views.py:472-476 | the saved movement keeps the request's product, branch, type and quantity and records the caller's worker |
| WarehouseViews.AdmissibleIsSufficient | warehouse/serializers.py:414-432 | a validated request passes the balance check on the same stock |
| WarehouseViews.ProcessAllKeepsNonNegative | warehouse/views.py:472-486 | handling requests one at a time, each validated against the current stock, keeps balances non-negative |
| WarehouseViews.StaleValidationOverdraws | warehouse/serializers.py:415-428 | two OUTs of 5 validated against the same balance 5 leave −5 |
| WarehouseViews.ValidatedInCanOverflowColumn | warehouse/models.py:237-241 | a validated IN can leave a balance outside numeric(14,3) |
| WarehouseViews.ManualSetBreaksLedger | warehouse/views.py:400-404 | any negative quantity that fits the column passes the update's validation unchanged; setting a row to it breaks both non-negativity and the log identity |
| WarehouseViews.ManualDeleteBreaksLedger | warehouse/views.py:413-415 | deleting a non-zero stock row breaks the log identity |
| WarehouseViews.MovementListing | warehouse/views.py:455-463 | the listing is exactly the movements of the caller's store |
| WarehouseViews.MovementListingNewestFirst | warehouse/models.py:262 | a new visible movement is listed first, before the earlier listing |
| WarehouseViews.StockListing | warehouse/views.py:333-341 | the listing is exactly the caller's store's rows, unchanged; a caller without a worker or store sees nothing |
| WarehouseViews.Ledger.RecordMovement | warehouse/views.py:472-486 | the log only grows: the old log is a prefix of the new one, which is the old log plus this movement. The movement is appended and only its key's balance moves, by the signed quantity; stock stays the replay of the log |
| WarehouseViews.Ledger.CreateMovement | warehouse/views.py:472-503 | it succeeds iff the request is admissible for the caller's store. On success it appends the movement and applies it; on error nothing changes and the validation error is returned. It preserves non-negativity and stock = replay(log) |
| WarehouseViews.Ledger.CreateStock | warehouse/views.py:388-391 | the answer is the stock validation's; on success exactly the new row is added |
| WarehouseViews.Ledger.UpdateStock | warehouse/views.py:400-404 | a row outside the caller's store or missing answers 404; otherwise a valid quantity replaces that row only |
| WarehouseViews.Ledger.DeleteStock | warehouse/views.py:413-415 | a visible existing row is removed and only it; anything else answers 404 with nothing changed |
| WarehouseViews.Catalog.DestroyCategory | warehouse/views.py:123-126 | a visible category is marked inactive and kept; anything else answers 404 |
| WarehouseViews.Catalog.DestroyProduct | warehouse/views.py:247-250 | a visible product is marked inactive and kept; anything else answers 404 |
| WarehouseViews.SoftDeletedNameStillTaken | warehouse/serializers.py:82-89 | after a soft delete, creating a category with the same name in the same store is refused |
| WarehouseViews.SoftDeleteKeepsNamesUnique | warehouse/views.py:123-126 | a soft delete keeps (store, name) unique |
| WarehouseSchemaV3.AddWarehouseUniqueIff | warehouse/migrations/0003_expand_warehouse_models.py:36 | a new warehouse keeps (store, name) unique iff no warehouse of its store has its name |
| WarehouseSchemaV3.ParseMovementTypeV3 | warehouse/migrations/0003_expand_warehouse_models.py:41-49 | the codes are exactly "in", "out" and "transfer" |
| WarehouseSchemaV3.Widen | warehouse/migrations/0003_expand_warehouse_models.py:41-49 | an old type's code parses under the new choices to a non-TRANSFER type |
| WarehouseSchemaV3.OldCodesStillParse | warehouse/migrations/0003_expand_warehouse_models.py:41-49 | every code valid before the migration is valid after it, with the same meaning |
| WarehouseSchemaV3.MigrateMovement | warehouse/migrations/0003_expand_warehouse_models.py:52-101 | a migrated movement keeps product, type, quantity, note and worker, and has no branch or warehouse endpoints |
| WarehouseSchemaV3.MigrationForgetsBranch | warehouse/migrations/0003_expand_warehouse_models.py:52-55 | movements differing only in branch migrate to the same row |
| WarehouseSchemaV3.LocationOf | warehouse/migrations/0003_expand_warehouse_models.py:136-146 | a row has a location iff it meets the check constraint (exactly one of branch and warehouse) |
| WarehouseSchemaV3.RowAt | warehouse/migrations/0003_expand_warehouse_models.py:136-146 | a row built at a location meets the check constraint and has that location |
| WarehouseSchemaV3.RowAtLocationOf | warehouse/migrations/0003_expand_warehouse_models.py:136-146 | a row meeting the check constraint is rebuilt from its location (inverse of LocationOf) |
| WarehouseSchemaV3.UniquePerLocationIffKeysDistinct | warehouse/migrations/0003_expand_warehouse_models.py:136-152 | for rows meeting the check constraint, the two unique constraints together mean one row per (product, location) |
| WarehouseSchemaV3.UniqueAloneAdmitsLocationlessRows | warehouse/migrations/0003_expand_warehouse_models.py:149-152 | the unique constraints alone allow two rows of one product with no location |
| WarehouseSchemaV3.MigrateStockRow | warehouse/migrations/0003_expand_warehouse_models.py:110-120 | an existing branch row meets the new check constraint and keeps its key and quantity |
| Codes.SortedCodes | accaunt/serializers.py:527-530 | `sorted()` of a set is strictly increasing and holds exactly the set's elements |
| AccountModels.PhoneFieldValidIff | accaunt/models.py:26-29 | the phone field accepts exactly "+998" followed by nine digits |
| AccountModels.RegexAloneAcceptsTrailingNewline | accaunt/models.py:26-29 | the pattern's `$` lets a valid number followed by a newline match, but the field rejects it |
| AccountModels.NewUser | accaunt/models.py:52-83 | a user is created iff the username is non-empty; it is active and carries the given fields |
| AccountModels.UserManager.CreateUser | accaunt/models.py:52-83 | the user list grows by the new user exactly on success |
| AccountModels.UserManager.CreateSuperuser | accaunt/models.py:85-106 | on a non-empty username it stores a staff superuser "Super Admin" whose fixed phone passes the phone validator |
| AccountModels.UserManager.ChangePassword | accaunt/serializers.py:128-161 | the password changes iff the current one matches and the new one is non-empty and agrees with its repetition. A wrong current password is reported first, then a blank new password, then a mismatch; on error nothing changes |
| AccountModels.SuperuserPhoneValid | accaunt/models.py:103 | the superuser's fixed phone is a valid phone |
| AccountModels.Strip | accaunt/models.py:156 | the result is a slice of the input with only whitespace cut on either side, and begins and ends with non-whitespace |
| AccountModels.DisplayName | accaunt/models.py:155-157 | the name is the stripped "first last" when that is non-empty, and the username otherwise |
| AccountModels.StripClean | accaunt/models.py:156 | stripping a string without outer whitespace gives it back |
| AccountModels.Worker.constructor | accaunt/models.py:299-304 | a new worker has the given role, store and branch, the default status "active" and no overrides |
| AccountModels.DisplayNameOfFullName | accaunt/tests.py:49-52 | with both names set, the display name is "first last" |
| AccountModels.DisplayNameFallsBack | accaunt/models.py:155-157 | with blank names, the display name is the username |
| AccountModels.GetPermissions | accaunt/models.py:317-325 | a worker's permissions are exactly the role's and the extra ones |
| AccountModels.HasPermission | accaunt/models.py:327-336 | true iff some granted permission has the code |
| AccountModels.HasPermissionIff | accaunt/models.py:327-336 | true iff the code is the role's or an extra permission's |
| AccountModels.NoRoleOnlyExtras | accaunt/models.py:317-325 | a worker with no role has only the extra permissions |
| AccountModels.ExtraPermissionGrants | accaunt/tests.py:291-316 | adding an extra permission grants its code and takes nothing away |
| AccountModels.DefaultsFor | accaunt/serializers.py:522 | the role's default codes, or none for an unknown role |
| AccountModels.CodeList | accaunt/serializers.py:507-508 | a missing list reads as empty |
| AccessChecks.IsSuperAdmin | accaunt/permissions.py:47-48 | allowed iff the user is a superuser |
| AccessChecks.IsOwner | accaunt/permissions.py:59-61 | allowed iff the user has a worker whose role is owner |
| AccessChecks.IsManagerOrAbove | accaunt/permissions.py:72-76 | allowed iff the worker's role is owner or manager; every owner passes |
| AccessChecks.IsSotuvchiOrAbove | accaunt/permissions.py:86-88 | allowed iff the user has an active worker |
| AccessChecks.CanAccess | accaunt/permissions.py:114-116 | allowed iff the user has a worker holding the section's permission |
| AccessChecks.SuperAdminIgnoresWorker | accaunt/permissions.py:47-48 | the superadmin check does not depend on the worker |
| AccessChecks.NoWorkerRefused | accaunt/permissions.py:27-32 | a user without a worker fails every worker-based check |
| AccessChecks.InactiveOwnerFailsLowestCheck | accaunt/permissions.py:59-88 | an inactive owner passes IsManagerOrAbove but fails IsSotuvchiOrAbove |
| AccessChecks.CanAccessIff | accaunt/permissions.py:114-116 | section access is granted iff the worker's role or extra permissions include the section |
| AccountSerializers.Register | accaunt/serializers.py:41-81 | registration succeeds iff the username is set, the password is non-empty and the two passwords agree. A blank username is reported first, then a blank password, then a mismatch. It creates an active non-staff user and an owner worker with no store or branch |
| AccountSerializers.ValidateRoleAssignment | accaunt/serializers.py:350-360 | a role is accepted iff it is a choice and, for owner, the requester is a superuser or an owner |
| AccountSerializers.OwnerMadeOnlyByOwnerOrSuperuser | accaunt/serializers.py:417-427 | only a superuser or an owner can assign the owner role |
| AccountSerializers.ValidateStatusChange | accaunt/serializers.py:429-442 | a status is accepted iff it is a choice, the requester is an owner, and it does not retire an owner; the owner error is exactly that last case |
| AccountSerializers.DeactiveNotAcceptedByStatusField | accaunt/serializers.py:429-442 | "deactive" is refused as not a choice, whoever asks |
| AccountSerializers.UnknownOf | accaunt/serializers.py:471-479 | the reported codes are exactly the unknown codes of the list |
| AccountSerializers.ValidatePermissionRequest | accaunt/serializers.py:471-494 | a request is valid iff every code is known and no code is both added and removed. Unknown codes of both lists are reported; a conflict reports the sorted intersection |
| AccountSerializers.NormalizeOverride | accaunt/serializers.py:506-525 | the stored override never re-grants a default or removes a non-default, and the lists are disjoint; added codes end up effective and removed ones do not |
| AccountSerializers.UpdateEffective | accaunt/serializers.py:506-525 | for disjoint overrides, the effective codes change by exactly the request: (before ∪ add) − remove |
| AccountSerializers.NormalizeIdempotent | accaunt/serializers.py:506-525 | repeating a request changes nothing |
| AccountSerializers.CanonicalDeterminedByEffective | accaunt/serializers.py:521-525 | two overrides in the form update leaves that yield the same codes are equal |
| AccountSerializers.StoredOverride | accaunt/serializers.py:527-530 | the stored object has exactly the two keys, both lists sorted, and reads back as the override |
| AccountSerializers.UpdatePermissions | accaunt/serializers.py:496-532 | the worker's override becomes the normalised, sorted override in canonical form; no other field changes |
| AccountViews.VisibleWorkers | accaunt/views.py:226-239 | a worker is listed iff the caller has a worker with a store and the two stores are the same |
| AccountViews.StorelessListsNothing | accaunt/views.py:231-233 | a caller without a worker or store lists nothing, and a storeless worker is listed to no one |
| AccountViews.TenantsDisjoint | accaunt/views.py:226-239 | callers of different stores see disjoint workers |
| AccountViews.Step | accaunt/views.py:323-378 | activate refuses an active worker; deactivate refuses a deactivated worker with 400 and an owner with 403; destroy always deactivates; a refusal leaves the status |
| AccountViews.OwnerSurvivesDeactivate | accaunt/views.py:356-369 | no sequence of activate and deactivate deactivates an owner |
| AccountViews.DestroyDeactivatesOwner | accaunt/views.py:249-255 | destroy deactivates an owner that deactivate refuses |
| AccountViews.RepeatRefused | accaunt/views.py:323-378 | a successful activate or deactivate answers 400 when repeated |
| AccountViews.DeactiveOutsideChoices | accaunt/views.py:249-255 | the status destroy and deactivate write is not a status choice |
| AccountViews.ActivateWorker | accaunt/views.py:323-345 | the answer and new status are those of the activate step; role, store, branch and permissions are unchanged |
| AccountViews.DeactivateWorker | accaunt/views.py:347-378 | the answer and new status are those of the deactivate step; nothing else changes |
| AccountViews.DestroyWorker | accaunt/views.py:249-255 | the worker is deactivated, not removed; nothing else changes |
| Migration0004.ChoicesCarriedOver | accaunt/migrations/0004_alter_worker_role_alter_worker_status.py:24-127 | the forward data step moves every row whose role and status were old choices into the new choices. The reverse step moves new-choice rows back into the old choices, except that "tatil" has no old counterpart |
| Migration0004.Rename | accaunt/migrations/0004_alter_worker_role_alter_worker_status.py:44-52 | the list keeps its length and order, with each `from` replaced by `to` |
| Migration0004.RenameRemovesAll | accaunt/migrations/0004_alter_worker_role_alter_worker_status.py:44-52 | no `from` is left after the rename |
| Migration0004.RenameChangesIff | accaunt/migrations/0004_alter_worker_role_alter_worker_status.py:44-52 | a list changes iff it held `from` |
| Migration0004.RenameRoundTrip | accaunt/migrations/0004_alter_worker_role_alter_worker_status.py:44-52 | renaming back restores a list that held no `to` |
| Migration0004.RenameExtra | accaunt/migrations/0004_alter_worker_role_alter_worker_status.py:40-56 | both code lists are renamed, missing lists stay missing, and other keys are untouched |
| Migration0004.SavedIffChanged | accaunt/migrations/0004_alter_worker_role_alter_worker_status.py:42-56 | a worker is saved iff its override changes |
| Migration0004.ForwardUsesNewNames | accaunt/migrations/0004_alter_worker_role_alter_worker_status.py:24-56 | after the forward migration no row uses an old role, status or code |
| Migration0004.RoundTrip | accaunt/migrations/0004_alter_worker_role_alter_worker_status.py:24-82 | forward then reverse restores every row that used none of the new names |
| Migration0004.RoundTripLosesExistingNewCode | accaunt/migrations/0004_alter_worker_role_alter_worker_status.py:59-82 | a row that already had "ombor" comes back with "sklad" |
| Migration0004.RewriteOverride | accaunt/migrations/0004_alter_worker_role_alter_worker_status.py:41-53 | the override is renamed, and `changed` holds iff a list held `from` iff the override changed |
| Migration0004.RenameCodesInPlace | accaunt/migrations/0004_alter_worker_role_alter_worker_status.py:40-56 | every row's override is renamed in place, and the saved rows are exactly those that held `from` |
| Migration0004.MigrateWorkerData | accaunt/migrations/0004_alter_worker_role_alter_worker_status.py:24-56 | every row becomes its forward image; saved rows are those that held "sklad" |
| Migration0004.ReverseMigrateWorkerData | accaunt/migrations/0004_alter_worker_role_alter_worker_status.py:59-82 | every row becomes its reverse image; saved rows are those that held "ombor" |
| Migration0005.DefaultsLadder | accaunt/migrations/0005_worker_permissions_replace_extra.py:31-39 | seller ⊂ manager ⊂ owner defaults, with "sozlamalar" only for owners; "sotuvchi" has no defaults |
| Migration0005.ForwardPermissions | accaunt/migrations/0005_worker_permissions_replace_extra.py:41-47 | the list is sorted without duplicates and holds exactly the worker's effective codes |
| Migration0005.ReverseExtra | accaunt/migrations/0005_worker_permissions_replace_extra.py:70-76 | the rebuilt override is canonical and yields exactly the listed codes |
| Migration0005.UnknownRoleOnlyOverride | accaunt/migrations/0005_worker_permissions_replace_extra.py:41-47 | a role without defaults gets its additions minus its removals |
| Migration0005.ForwardAfterReverse | accaunt/migrations/0005_worker_permissions_replace_extra.py:41-76 | reverse then forward sorts and deduplicates a list, and restores a sorted duplicate-free one |
| Migration0005.ReverseAfterForward | accaunt/migrations/0005_worker_permissions_replace_extra.py:41-76 | forward then reverse restores every canonical stored override |
| Migration0005.UpdatedOverrideRoundTrips | accaunt/migrations/0005_worker_permissions_replace_extra.py:41-76 | every override the permission update writes survives the round trip |
| Migration0005.RedundantGrantDropped | accaunt/migrations/0005_worker_permissions_replace_extra.py:70-76 | a granted code that the role already has by default (a seller's "sotuv", say) is dropped by the round trip, leaving an empty override |
| Migration0005.MigrateToPermissions | accaunt/migrations/0005_worker_permissions_replace_extra.py:41-47 | every row gets its forward permission list; other columns are kept |
| Migration0005.ReverseToExtraPermissions | accaunt/migrations/0005_worker_permissions_replace_extra.py:70-76 | every row gets its override rebuilt from its list; other columns are kept |
| ErrorMessages.MessageTable | config/exceptions.py:17-28 | the table covers exactly ten status codes, every message is non-empty, and only 405 has a placeholder |
| ErrorMessages.FormatWithoutBraces | config/exceptions.py:49 | `FormatMethod`, the model of `uzbek_msg.format(method=method)`, leaves a text without braces unchanged |
| ErrorMessages.FormatOnePlaceholder | config/exceptions.py:49 | `FormatMethod` puts the method in place of the one placeholder |
| ErrorMessages.Render | config/exceptions.py:48-49 | a plain message is itself; the 405 message has the method between its two parts |
| ErrorMessages.RenderIsFormat | config/exceptions.py:48-49 | rendering a template agrees with `str.format(method=...)` on its spelled form |
| ErrorMessages.NotAllowedBraceFree | config/exceptions.py:21 | the text around the 405 placeholder has no brace of its own |
| ErrorMessages.NotAllowedRenderIsFormat | config/exceptions.py:48-49 | for the 405 entry, `str.format(method=m)` on the table's text is the text with `m` in place of `{method}` |
| ErrorMessages.DetailReplaced | config/exceptions.py:45-49 | assigning the detail of a detail-only body leaves a body with just the new detail |
| ErrorMessages.MethodName | config/exceptions.py:48 | the request's method, or empty without a request |
| ErrorMessages.Rewritten | config/exceptions.py:38-49 | a body is replaced iff its status has a message and it is detail-only, and then by the rendered message |
| ErrorMessages.FieldErrorsKept | config/exceptions.py:45-47 | field error bodies are never rewritten |
| ErrorMessages.RewriteIdempotent | config/exceptions.py:38-49 | handling the same response twice equals handling it once |
| ErrorMessages.NotAllowedNamesMethod | config/exceptions.py:21 | a 405 body names the request's method |
| ErrorMessages.OtherCodesUseTable | config/exceptions.py:17-28 | every other tabled code gets its table message, whatever the original detail |
| ErrorMessages.HandleException | config/exceptions.py:31-51 | the same response comes back with its status kept and its body rewritten as above; a null response is passed through |

## Left out

- Concurrency and transactions (`transaction.atomic` in registration and worker creation) are not
  modelled. Each call runs alone. `StaleValidationOverdraws` shows what two interleaved movement
  requests can do.
- Audit logs, JWT login/logout, password hashing, e-mail normalisation, and the display and list
  serializers are left out. They record or present data and take no part in the ledger or the
  permission algebra.
- `AccountModels.UserManager.ChangePassword`: whether the current password matches is a parameter,
  because checking it is password hashing. The new passwords are the values after DRF's
  `CharField` parsing, which trims surrounding whitespace. The trim is not modelled.
- `AccountSerializers.Register`: the username, names and passwords are the values after DRF's
  `CharField` parsing, which trims surrounding whitespace (`trim_whitespace=True`). The trim is not
  modelled: a username of only blanks arrives here as the empty username.
- `AccountModels.UserManager.CreateUser`: the uniqueness of username and phone is enforced by the
  database and is not modelled. The user list accepts duplicates.
- Registration's e-mail and phone format errors from field validation are not modelled. `Register`
  covers only the blank-username, blank-password and password-match checks.
- `AccountSerializers.Register` and `AccountModels.UserManager.ChangePassword`: when several
  fields fail at once, DRF reports all their errors together. The model returns the first, in the
  order the contracts state.
- `AccountModels.PhoneFieldValidIff`: `\d` is read as the ASCII digits; Python's Unicode digits
  are not modelled.
- The store app and the TRANSFER movement: no view applies a TRANSFER to stock, so the model only
  parses the type.
- `WarehouseViews.Ledger.RecordMovement`: the database error when a balance leaves numeric(14,3) is
  not modelled. The model keeps the unbounded balance, and `ValidatedInCanOverflowColumn` shows the
  case.
- Decimal quantities are modelled as whole thousandths; input with more decimal places is rejected
  by the framework before validation and is not modelled.
- `WarehouseSerializers.ValidateCategoryNameOnCreate`: the name's `max_length` is not modelled.
  The contract states the duplicate check only.
- `WarehouseSerializers.ValidateStockUpdate`: DRF skips the validation of omitted fields; the model
  treats an omitted quantity as "keep".
- `WarehouseSerializers.ValidateCategoryOnCreate`: a category sent as null with a store in context
  makes the source raise an attribute error (a 500). The model reports it as its own error value.
- `AccountSerializers.UpdatePermissions`: a null `extra_permissions` reads as an empty object, the
  same as an empty map.
- `AccountSerializers.ValidatePermissionRequest`: the table of all permission codes is a
  parameter, and so is the role-defaults table in `UpdatePermissions`.
- The permission classes are modelled in `AccessChecks`. The view methods in `AccountViews` model
  the action bodies after those classes let the request through.
- `ErrorMessages.FormatMethod`: it models `str.format` only for templates whose only brace is a
  `{method}` placeholder. The table is stored split at the placeholder (`Template`). For the 405
  entry the agreement is proved (`NotAllowedRenderIsFormat`). The plain entries have no brace
  either; that is read off config/exceptions.py:17-26 and not proved. The proof costs too much
  for literals of this length.
- Paging, ordering by name and `select_related` in the listings are not modelled; listings are
  sets or filtered sequences.
