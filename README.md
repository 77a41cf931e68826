# TodoApp domain core in Dafny

This project models the domain layer of the TodoApp task tracker, a C# application. It covers:

- the entity base classes: identity equality in `BaseEntity`, audit stamps in `AuditableEntity`, and the pending domain-event buffer in `AggregateRoot`;
- the text value objects `Title`, `Description`, `TaskTitle` and `TaskDescription`;
- the task status lifecycle and the priority ordering;
- the entities `TodoTask`, `TodoList`, `Comment`, `Tag` and `TodoListShare`;
- the pagination arithmetic of `PagedRequest` and `PagedResult`.

## How the C# maps to Dafny

Pure code is written as datatypes, functions and lemmas. This covers the enums and their extension methods, the value objects (sealed records), `BaseEntity` equality and `PagedResult`.

Code that changes state is written as classes. Each class has the source's fields and methods whose `modifies` clause lists exactly the fields they assign. This covers:

- `AuditableEntity`, `AggregateRoot`, `TodoTask`, `TodoList`, `Comment`, `Tag` and `TodoListShare`;
- the setters of `PagedRequest`.

Inheritance is modelled by composition. Every entity object owns an `AuditableEntity` in `base`, which holds its `Id` and its audit fields. `TodoList` owns an `AggregateRoot` in `root`, which owns the base in turn.

An entity's concrete type, which the source compares with `GetType()`, is the `Kind` its class passes to `KeyAs`.

Other conventions:

- **Null.** A C# null is `None` of `Option`, or a `?` class type for object references.
- **Exceptions.** A thrown exception is an `Err`/`Fail` value naming the exception kind and the parameter (`ArgumentNull("title")`). A refused state change is proved to leave the object unchanged.
- **Clock.** Every read of `DateTime.UtcNow` that survives in the state is its own parameter. `ChangeStatus` reads the clock twice, once for `CompletedAt` (`completionClock`) and once for the update stamp (`now`), so the model does not make the two equal. At creation the second read (`SetCreatedInfo`) overwrites the first (the `CreatedAt` initializer), so one `now` stands for the value that remains.
- **New ids.** `Guid.NewGuid()` is an `id` parameter.
- **Integers.** C# `int` is the subtype `Int32`. Unchecked 32-bit wrap-around is written out with `Wrap32`.
- **Strings.** Strings are `seq<char>`.
  - `Text.IsWhiteSpace` is the character set of `Char.IsWhiteSpace`.
  - `Text.Trim`, `Text.Split` (with `RemoveEmptyEntries`) and ordinal `Text.Contains` are defined over that set and characterised by lemmas.

## Model

| member | source | states |
|---|---|---|
| `Seqs.RemoveFirstMultiset` | src/TodoApp.Domain/Common/AggregateRoot/AggregateRoot.cs:47 | `List.Remove` takes exactly one copy of the item out of the multiset of elements when it is present. It leaves the list as it was when the item is absent. |
| `TaskStatuses.GetPossibleTransitions` | src/TodoApp.Domain/Enums/Extensions/TaskStatusExtensions.cs:58-65 | A target is in the list if and only if `CanTransitionTo` allows it. The list has no duplicates and holds one or two entries. |
| `TaskStatuses.TransitionTable` | src/TodoApp.Domain/Enums/Extensions/TaskStatusExtensions.cs:44-51 | The five allowed moves and the refused move Completed→NotStarted. No status may move to itself. |
| `TaskStatuses.SuccessorCounts` | src/TodoApp.Domain/Enums/Extensions/TaskStatusExtensions.cs:58-65 | The successor lists have lengths 2, 2 and 1. |
| `TaskStatuses.StronglyConnected` | src/TodoApp.Domain/Enums/Extensions/TaskStatusExtensions.cs:47-49 | Every status reaches every other in at most two steps. The only pair with no direct move is Completed→NotStarted, which goes through InProgress. |
| `TaskStatuses.DisplayNamesDistinct` | src/TodoApp.Domain/Enums/Extensions/TaskStatusExtensions.cs:13-21 | `GetDisplayName` is defined on every status and gives each a different name. |
| `TaskPriorities.Value` | src/TodoApp.Domain/Enums/Core/TaskPriority.cs:11-31 | The underlying values run from 1 (VeryLow) to 5 (Critical). |
| `TaskPriorities.GetPriorities` | src/TodoApp.Domain/Enums/Extensions/TaskPriorityExtensions.cs:46-47 | The list has five entries and contains every priority. Priority `p` sits at index `5 - Value(p)`. Values strictly decrease along the list. |
| `TaskPriorities.PrioritiesOnceEach` | src/TodoApp.Domain/Enums/Extensions/TaskPriorityExtensions.cs:46-47 | Each priority occurs in `GetPriorities` exactly once. |
| `TaskPriorities.DisplayNamesDistinct` | src/TodoApp.Domain/Enums/Extensions/TaskPriorityExtensions.cs:13-23 | `GetDisplayName` gives each of the five priorities a different name, and the values are distinct. |
| `TaskPriorities.GetDescription` | src/TodoApp.Domain/Enums/Extensions/TaskPriorityExtensions.cs:30-40 | Every priority has a non-empty description. |
| `Entities.FromGuid` | src/TodoApp.Domain/Common/BaseEntity/BaseEntity.cs:13-18 | An entity with a Guid id is never transient, because `TId?` over a Guid is a plain Guid. |
| `Entities.EqualsCases` | src/TodoApp.Domain/Common/BaseEntity/BaseEntity.cs:23-38 | `Equals(null)` is false and `Equals(self)` is true. Different concrete types are never equal. A transient side is never equal to another object. Otherwise equality is id equality. |
| `Entities.EqualsIsTypeAndId` | src/TodoApp.Domain/Common/BaseEntity/BaseEntity.cs:31-37 | For entities with ids, equality holds if and only if type and id are equal. |
| `Entities.EqualsIsEquivalence` | src/TodoApp.Domain/Common/BaseEntity/BaseEntity.cs:23-38 | Entity equality is reflexive, symmetric and transitive. |
| `Entities.HashCode` | src/TodoApp.Domain/Common/BaseEntity/BaseEntity.cs:49-55 | An entity with an id hashes to its id's hash. |
| `Entities.EqualsImpliesSameHash` | src/TodoApp.Domain/Common/BaseEntity/BaseEntity.cs:23-55 | Equal entities with ids have equal hash codes. |
| `Entities.EqualsObjectAgrees` | src/TodoApp.Domain/Common/BaseEntity/BaseEntity.cs:43-44 | `Equals(object?)` agrees with the typed overload on entities. It is false for null and for objects that are not entities. |
| `Entities.OperatorCases` | src/TodoApp.Domain/Common/BaseEntity/BaseEntity.cs:60-75 | `==` is true for null == null and false when exactly one side is null. Otherwise it is `Equals`, and it is symmetric. `!=` is its negation. |
| `Entities.IndexOfEqual` | src/TodoApp.Domain/Entities/TodoList.cs:93-94 | The first position whose element `Equals` the argument: no earlier element does. This is what `List.Remove` searches for. |
| `AuditableEntities.ModifiedLaws` | src/TodoApp.Domain/Common/AuditableEntity/AuditableEntity.cs:20-55 | A fresh entity is not modified. `SetUpdatedInfo` makes it modified, and `SetCreatedInfo` leaves `IsModified` alone. Each setter leaves the other pair of fields untouched. |
| `AuditableEntities.StampAlgebra` | src/TodoApp.Domain/Common/AuditableEntity/AuditableEntity.cs:41-55 | For one user and instant, both setters are idempotent. The two setters commute. A later update overwrites an earlier one. |
| `AuditableEntities.AuditableEntity.constructor` | src/TodoApp.Domain/Common/AuditableEntity/AuditableEntity.cs:15-30 | `CreatedAt` is the clock. `UpdatedAt` is null and the user ids are `Guid.Empty`, so the entity is not modified. |
| `AuditableEntities.AuditableEntity.KeyAs` | src/TodoApp.Domain/Common/BaseEntity/BaseEntity.cs:13-18 | The entity as equality sees it: this object, its class and its id. It is never transient. |
| `AuditableEntities.AuditableEntity.SetCreatedInfo` | src/TodoApp.Domain/Common/AuditableEntity/AuditableEntity.cs:41-45 | Sets `CreatedAt = now` and `CreatedBy = userId`, and nothing else. `IsModified` is unchanged. |
| `AuditableEntities.AuditableEntity.SetUpdatedInfo` | src/TodoApp.Domain/Common/AuditableEntity/AuditableEntity.cs:51-55 | Sets `UpdatedAt = now` and `UpdatedBy = userId`, and nothing else. Afterwards `IsModified` holds. |
| `AuditableEntities.SameClassEqualsIffSameId` | src/TodoApp.Domain/Common/BaseEntity/BaseEntity.cs:23-38 | Two entities of one class are equal if and only if their ids are equal. |
| `AuditableEntities.DifferentClassesNeverEqual` | src/TodoApp.Domain/Common/BaseEntity/BaseEntity.cs:31-32 | Distinct objects of different classes are never equal, even with equal ids. |
| `AggregateRoots.AggregateRoot.constructor` | src/TodoApp.Domain/Common/AggregateRoot/AggregateRoot.cs:8-24 | A new aggregate has no pending events and fresh audit fields. |
| `AggregateRoots.AggregateRoot.AddDomainEvent` | src/TodoApp.Domain/Common/AggregateRoot/AggregateRoot.cs:30-36 | Null fails and leaves the buffer unchanged. Otherwise the buffer becomes the old buffer followed by the event, with no deduplication, and `HasDomainEvents` holds. |
| `AggregateRoots.AggregateRoot.RemoveDomainEvent` | src/TodoApp.Domain/Common/AggregateRoot/AggregateRoot.cs:42-48 | Null fails and leaves the buffer unchanged. Otherwise the first occurrence is removed and the rest keep their order: exactly one copy leaves the multiset. An absent event changes nothing. |
| `AggregateRoots.AggregateRoot.ClearDomainEvents` | src/TodoApp.Domain/Common/AggregateRoot/AggregateRoot.cs:53-61 | The buffer is empty and `HasDomainEvents` is false. |
| `AggregateRoots.AddTwiceRemoveOnce` | src/TodoApp.Domain/Common/AggregateRoot/AggregateRoot.cs:30-48 | Adding an event twice keeps both copies. Removing it once leaves one more entry than before: exactly one copy, at the end, when the event was new. |
| `Titles.NewTitle` | src/TodoApp.Domain/ValueObjects/Title.cs:27-39 | The checks run in this order: a bound below 1 fails with ArgumentOutOfRange(maxLength); null with ArgumentNull; blank text with Argument. Success holds if and only if 1 ≤ trimmed length ≤ maxLength, and then `Value` is the trimmed text and `MaxLength` the bound. |
| `Titles.IsValidIffConstructs` | src/TodoApp.Domain/ValueObjects/Title.cs:77-89 | `IsValid(v, m)` holds if and only if the constructor succeeds. |
| `Titles.AcceptedIffTrimmedLengthInRange` | src/TodoApp.Domain/ValueObjects/Title.cs:29-36 | A non-null value is accepted if and only if it is not blank and its trimmed length is within the bound. |
| `Titles.RebuildFromValue` | src/TodoApp.Domain/ValueObjects/Title.cs:32-38 | Rebuilding a Title from its own `Value` and `MaxLength` gives the same Title. |
| `Titles.ConstructIdempotent` | src/TodoApp.Domain/ValueObjects/Title.cs:32-38 | Constructing from the output of a construction gives the same result. |
| `Titles.ListAndTaskBounds` | src/TodoApp.Domain/ValueObjects/Title.cs:60-69 | 101 characters pass `ForList` and fail `ForTask`. 100 characters pass `ForTask`. 200 characters pass `ForList` and 201 fail it. |
| `Titles.ContainsOrdinal` | src/TodoApp.Domain/ValueObjects/Title.cs:97-99 | The ordinal `Contains` holds if and only if the search text occurs in `Value`. Every ordinal hit is also a case-insensitive hit. |
| `Descriptions.NewDescription` | src/TodoApp.Domain/ValueObjects/Description.cs:31-44 | A negative bound fails with Argument(maxLength). Blank input, null included, gives an absent `Value`, never "". Success holds if and only if the input is null or its trimmed length is within the bound, and then `Value` is the trimmed text. |
| `Descriptions.ListAndTaskBounds` | src/TodoApp.Domain/ValueObjects/Description.cs:65-74 | 501 characters pass `ForList` and fail `ForTask`. 500 characters pass `ForTask`. 2000 characters pass `ForList` and 2001 fail it. |
| `Descriptions.IsEmptyIffAbsent` | src/TodoApp.Domain/ValueObjects/Description.cs:23 | On a constructed description, `IsEmpty` holds if and only if `Value` is null. |
| `Descriptions.BlankIsAbsent` | src/TodoApp.Domain/ValueObjects/Description.cs:37-39 | Null, empty and blank input all build the description with no value. |
| `Descriptions.IsValidAsWrittenAgrees` | src/TodoApp.Domain/ValueObjects/Description.cs:82-83 | For a bound ≥ 0, the written `IsValid` holds if and only if construction succeeds. |
| `Descriptions.IsValidAsWrittenDisagrees` | src/TodoApp.Domain/ValueObjects/Description.cs:82-83 | `IsValid(null, -1)` is true while the constructor fails. |
| `Descriptions.IsValidIffConstructs` | src/TodoApp.Domain/ValueObjects/Description.cs:82-83 | The corrected `IsValid` holds if and only if construction succeeds, for every bound. It agrees with the written one when the bound is ≥ 0. |
| `Descriptions.ContainsOrdinal` | src/TodoApp.Domain/ValueObjects/Description.cs:91-93 | `Contains` is false on an empty description. On a present value, the ordinal search holds if and only if the text occurs in it. |
| `Descriptions.CountsAreRuns` | src/TodoApp.Domain/ValueObjects/Description.cs:99-119 | The word and line counts are 0 when the description is empty. Otherwise they count the maximal runs of characters outside {' ', '\t', '\n', '\r'} and outside {'\n'}, and each is ≥ 1. |
| `TaskTitles.NewTaskTitle` | src/TodoApp.Domain/ValueObjects/TaskTitle.cs:21-36 | Null or blank text fails with Argument(value). Success holds if and only if the trimmed length is between 1 and 200, and then `Value` is the trimmed text. |
| `TaskTitles.MinLengthCheckUnreachable` | src/TodoApp.Domain/ValueObjects/TaskTitle.cs:23-29 | Once blank text is refused, the trimmed value has at least one character. The MinLength check never fires, and acceptance depends on the 200 bound alone. |
| `TaskTitles.IsValidIffConstructs` | src/TodoApp.Domain/ValueObjects/TaskTitle.cs:57-66 | `IsValid(v)` holds if and only if the constructor succeeds. |
| `TaskTitles.RebuildFromValue` | src/TodoApp.Domain/ValueObjects/TaskTitle.cs:26-35 | Constructing from a TaskTitle's own value gives it back. |
| `TaskDescriptions.NewTaskDescription` | src/TodoApp.Domain/ValueObjects/TaskDescription.cs:25-38 | Null gives "". Success holds if and only if the input is null or its trimmed length is ≤ 2000, and then `Value` is the trimmed text. |
| `TaskDescriptions.IsEmptyIffBlank` | src/TodoApp.Domain/ValueObjects/TaskDescription.cs:18-37 | On a constructed description, `IsEmpty` holds if and only if `Value` is "". Blank input gives "", not null. |
| `TaskDescriptions.IsValidIffConstructs` | src/TodoApp.Domain/ValueObjects/TaskDescription.cs:59-60 | `IsValid(v)` holds if and only if the constructor succeeds. |
| `TaskDescriptions.ContainsOrdinal` | src/TodoApp.Domain/ValueObjects/TaskDescription.cs:68-70 | On a non-empty description, the ordinal `Contains` holds if and only if the text occurs in it. Every ordinal hit is a case-insensitive hit. |
| `TaskDescriptions.CountsAreRuns` | src/TodoApp.Domain/ValueObjects/TaskDescription.cs:76-94 | The counts are 0 on "". Otherwise they count the maximal runs of non-separators, with the same separators as Description, and each is ≥ 1. |
| `TodoTasks.TodoTask.constructor` | src/TodoApp.Domain/Entities/TodoTask.cs:80-95 | A new task stores its arguments. Its status is NotStarted, with no completion time and no assignee. It is created by `createdBy` and not modified. |
| `TodoTasks.TodoTask.New` | src/TodoApp.Domain/Entities/TodoTask.cs:80-95 | A null title fails with ArgumentNull(title) and builds nothing. A non-null title always succeeds. The new task stores every argument, is NotStarted with no completion time and no assignee, satisfies `Valid`, and is created by `createdBy` without being modified. |
| `TodoTasks.TodoTask.UpdateTitle` | src/TodoApp.Domain/Entities/TodoTask.cs:102-106 | A null title fails with the task and its audit fields unchanged. Otherwise the title is replaced and the update stamped; no other field changes. |
| `TodoTasks.TodoTask.UpdateDescription` | src/TodoApp.Domain/Entities/TodoTask.cs:113-117 | Replaces the description and stamps the update. No other field changes. |
| `TodoTasks.TodoTask.ChangeStatus` | src/TodoApp.Domain/Entities/TodoTask.cs:124-136 | A move the table forbids fails with the task and audit unchanged. An allowed move sets the status. Entering Completed sets `CompletedAt` to the first clock read and any other target clears it. The update is stamped with the second clock read. `CompletedAt` is set if and only if the status is Completed, and this is preserved. |
| `TodoTasks.TodoTask.SetPriority` | src/TodoApp.Domain/Entities/TodoTask.cs:143-147 | Replaces the priority and stamps the update. No other field changes. |
| `TodoTasks.TodoTask.SetDueDate` | src/TodoApp.Domain/Entities/TodoTask.cs:154-158 | Sets the due date and stamps the update. No other field changes. |
| `TodoTasks.TodoTask.AssignTo` | src/TodoApp.Domain/Entities/TodoTask.cs:165-169 | Sets or clears the assignee and stamps the update. No other field changes. |
| `TodoTasks.TodoTask.SetAssignedUserId` | src/TodoApp.Domain/Entities/TodoTask.cs:46 | The public setter changes the assignee only, without an audit stamp. |
| `TodoTasks.TodoTask.SetTodoListId` | src/TodoApp.Domain/Entities/TodoTask.cs:51 | The public setter changes the list id only, without an audit stamp. |
| `TodoTasks.OverdueOnlyWhenCompleted` | src/TodoApp.Domain/Entities/TodoTask.cs:175-182 | `IsOverdue`, as written, requires the task to be completed, so only completed tasks with a completion time can be overdue. For a completed task with a due date, it holds if and only if the due date is past. |
| `TodoTasks.LifecycleScenario` | src/TodoApp.Domain/Entities/TodoTask.cs:124-136 | NotStarted→InProgress→NotStarted→Completed succeeds step by step. The following Completed→NotStarted fails. The task stays completed, keeping the completion time and the update stamp of the step that completed it. |
| `TodoLists.RemoveFindsFirstSameId` | src/TodoApp.Domain/Entities/TodoList.cs:93-94 | The task `List.Remove` finds through entity `Equals` is the first task with the same id. |
| `TodoLists.TodoList.constructor` | src/TodoApp.Domain/Entities/TodoList.cs:45-53 | Stores the title, description and owner, with no tasks, shares or events. `SetCreatedInfo` is not called, so `CreatedBy` is `Guid.Empty` and the list is not modified. |
| `TodoLists.TodoList.New` | src/TodoApp.Domain/Entities/TodoList.cs:45-53 | A null title fails with ArgumentNull(title). A non-null title always succeeds. The new list stores its title, description, owner and id, has no tasks, shares or events, and keeps the initial audit state: `CreatedBy` is `Guid.Empty` and the list is not modified. |
| `TodoLists.TodoList.UpdateTitle` | src/TodoApp.Domain/Entities/TodoList.cs:60-64 | A null title fails with nothing changed. Otherwise the title is replaced and the update stamped. |
| `TodoLists.TodoList.UpdateDescription` | src/TodoApp.Domain/Entities/TodoList.cs:71-75 | Replaces the description, null included, and stamps the update. |
| `TodoLists.TodoList.AddTask` | src/TodoApp.Domain/Entities/TodoList.cs:81-85 | Null fails with nothing changed. Otherwise the task is appended, duplicates included. There is no audit stamp and no other change. |
| `TodoLists.TodoList.RemoveTask` | src/TodoApp.Domain/Entities/TodoList.cs:91-95 | Null fails. Otherwise the first task with the same id is removed and the rest keep their order. Nothing happens when no task has that id. There is no audit stamp and no other change. |
| `Comments.Comment.constructor` | src/TodoApp.Domain/Entities/Comment.cs:48-52 | Stores the trimmed content, the task and the author, with `CreatedBy = authorId`. |
| `Comments.Comment.New` | src/TodoApp.Domain/Entities/Comment.cs:41-53 | Null fails with ArgumentNull(content). Trimmed content over 1000 characters fails with Argument(content). Success holds if and only if neither applies. The stored content is trimmed and at most 1000 characters. The new comment has the given id, `CreatedAt = now`, `CreatedBy = authorId`, and is not modified. |
| `Comments.Comment.UpdateContent` | src/TodoApp.Domain/Entities/Comment.cs:60-69 | Null and "" fail, blank text does not, and over 1000 characters fails. A failure changes nothing. Success stores the trimmed content and stamps the update, while author and task stay. The content bound is preserved. |
| `Comments.BlankContentScenario` | src/TodoApp.Domain/Entities/Comment.cs:41-69 | Construction accepts "". An update with blank text succeeds and stores "". An update with "" fails with Argument(content). |
| `Tags.Tag.constructor` | src/TodoApp.Domain/Entities/Tag.cs:42-45 | Stores the trimmed name and the owner, with `CreatedBy = ownerId`. |
| `Tags.Tag.New` | src/TodoApp.Domain/Entities/Tag.cs:35-46 | Null fails with ArgumentNull(name). A trimmed name over 50 characters fails with Argument(name). Success holds if and only if neither applies. Blank names are stored as "". The new tag has the given id, `CreatedAt = now`, `CreatedBy = ownerId`, and is not modified. |
| `Tags.Tag.UpdateName` | src/TodoApp.Domain/Entities/Tag.cs:53-62 | Applies the constructor's checks, and a failure changes nothing. Success stores the trimmed name and stamps the update, while the owner stays. The 50-character bound is preserved. |
| `TodoListShares.TodoListShare.constructor` | src/TodoApp.Domain/Entities/TodoListShare.cs:41-52 | Stores the list, user and permission, with `CreatedBy = createdBy`. |
| `TodoListShares.TodoListShare.ChangePermission` | src/TodoApp.Domain/Entities/TodoListShare.cs:59-63 | Sets the permission and stamps the update. List and user stay. |
| `TodoListShares.ReadOnlyXorWrite` | src/TodoApp.Domain/Entities/TodoListShare.cs:69-77 | Exactly one of `IsReadOnly` and `CanWrite` holds. `CanWrite` holds if and only if the permission is FullAccess. |
| `PagedRequests.ClampPageNumber` | src/TodoApp.Domain/Pagination/PagedRequest.cs:20 | The stored page number is at least 1. A value of 1 or more is kept as given. |
| `PagedRequests.ClampPageSize` | src/TodoApp.Domain/Pagination/PagedRequest.cs:29-34 | The stored page size lies in 1..100. A value in range is kept as given. |
| `PagedRequests.ClampIdempotent` | src/TodoApp.Domain/Pagination/PagedRequest.cs:17-35 | Both setter rules are idempotent. A value is kept if and only if it is already in range. |
| `PagedRequests.SkipAsWrittenOverflows` | src/TodoApp.Domain/Pagination/PagedRequest.cs:55-56 | With page number 21,474,838 and size 100, both accepted by the setters, the written `Skip` wraps to a negative offset. |
| `PagedRequests.Skip` | src/TodoApp.Domain/Pagination/PagedRequest.cs:55-56 | Computed without overflow, the offset is ≥ 0 and bounded for every reachable page number and size. |
| `PagedRequests.SkipAgreesWhenInRange` | src/TodoApp.Domain/Pagination/PagedRequest.cs:55-56 | When the product fits in an int, the written and the corrected `Skip` agree. Page 3 with size 10 skips 20. |
| `PagedRequests.SkipNextPage` | src/TodoApp.Domain/Pagination/PagedRequest.cs:55-56 | Page 1 skips nothing, and each next page starts one page size further on. |
| `PagedRequests.PagedRequest.constructor` | src/TodoApp.Domain/Pagination/PagedRequest.cs:11-50 | The defaults are page 1, size 10, ascending, and no search or sort key. |
| `PagedRequests.PagedRequest.SetPageNumber` | src/TodoApp.Domain/Pagination/PagedRequest.cs:17-21 | Stores the clamped value and keeps the range invariant. Setting the value read back changes nothing. |
| `PagedRequests.PagedRequest.SetPageSize` | src/TodoApp.Domain/Pagination/PagedRequest.cs:26-35 | Stores the clamped value and keeps the range invariant. Setting the value read back changes nothing. |
| `PagedRequests.PagedRequest.SkipItems` | src/TodoApp.Domain/Pagination/PagedRequest.cs:55-56 | The request's offset is never negative. |
| `PagedRequests.PagedRequest.GetNormalizedSearchTerm` | src/TodoApp.Domain/Pagination/PagedRequest.cs:73-74 | Null stays null. Otherwise the result is the trimmed term, which has no white space at either end. |
| `PagedRequests.HasSearchIffNormalizedNonEmpty` | src/TodoApp.Domain/Pagination/PagedRequest.cs:61-74 | `HasSearch` holds if and only if the normalized term is present and non-empty. Normalizing twice changes nothing. |
| `PagedRequests.SetterSequence` | src/TodoApp.Domain/Pagination/PagedRequest.cs:17-35 | Starting from the defaults, the method sets each page number in turn and then each page size in turn. Afterwards page number ≥ 1 and 1 ≤ size ≤ 100. The last value of each list decides its field, and an empty list leaves the default (1, and 10). |
| `PagedResults.NewPagedResult` | src/TodoApp.Domain/Pagination/PagedResult.cs:54-64 | Null items fail with ArgumentNull(items). Anything else is accepted without relating the counts, and the items keep their order and length. |
| `PagedResults.TotalPages` | src/TodoApp.Domain/Pagination/PagedResult.cs:32-33 | For a positive page size, `(n-1)·size < total ≤ n·size`, which is the ceiling of total/size. |
| `PagedResults.TotalPagesIsCeiling` | src/TodoApp.Domain/Pagination/PagedResult.cs:32-33 | That bracket determines the page count uniquely. For a total ≥ 0 the count lies between 0 and the total. |
| `PagedResults.TotalPagesExample` | src/TodoApp.Domain/Pagination/PagedResult.cs:32-33 | 25 items in pages of 10 make 3 pages. |
| `PagedResults.HasNextPageIff` | src/TodoApp.Domain/Pagination/PagedResult.cs:38-45 | `HasNextPage` holds if and only if page·size < total, and it is false on the last page. |
| `PagedResults.Empty` | src/TodoApp.Domain/Pagination/PagedResult.cs:72-73 | `Empty(p, s)` is the constructor applied to no items and a total of 0. |
| `PagedResults.EmptyPages` | src/TodoApp.Domain/Pagination/PagedResult.cs:72-73 | An empty page has no items and 0 pages. It has a next page only for a negative page number. `Empty(2, 25)` has a previous page and no next page. |
| `TaskStatuses.CanTransitionTo` | src/TodoApp.Domain/Enums/Extensions/TaskStatusExtensions.cs:44-51 | Definition of the transition table, characterised by `TaskStatuses.TransitionTable` and `TaskStatuses.GetPossibleTransitions`. |
| `Entities.Equals` | src/TodoApp.Domain/Common/BaseEntity/BaseEntity.cs:23-38 | Definition of the typed `Equals`, characterised by `Entities.EqualsCases`, `Entities.EqualsIsTypeAndId` and `Entities.EqualsIsEquivalence`. |
| `Entities.EqualsObject` | src/TodoApp.Domain/Common/BaseEntity/BaseEntity.cs:43-44 | Definition of `Equals(object?)`, characterised by `Entities.EqualsObjectAgrees`. |
| `Entities.OpEquality` | src/TodoApp.Domain/Common/BaseEntity/BaseEntity.cs:60-69 | Definition of `==`, characterised by `Entities.OperatorCases`. |
| `Entities.OpInequality` | src/TodoApp.Domain/Common/BaseEntity/BaseEntity.cs:74-75 | Definition of `!=`, characterised by `Entities.OperatorCases`. |
| `Entities.GuidHash` | src/TodoApp.Domain/Common/BaseEntity/BaseEntity.cs:53 | Definition of the id's hash, characterised by `Entities.HashCode` and `Entities.EqualsImpliesSameHash`. |
| `AggregateRoots.AggregateRoot.DomainEvents` | src/TodoApp.Domain/Common/AggregateRoot/AggregateRoot.cs:8-24 | Definition: the pending events in the order they were added, characterised by `AddDomainEvent`, `RemoveDomainEvent` and `ClearDomainEvents`. |
| `AggregateRoots.AggregateRoot.HasDomainEvents` | src/TodoApp.Domain/Common/AggregateRoot/AggregateRoot.cs:8-24 | Definition, characterised by `AddDomainEvent` (true afterwards) and `ClearDomainEvents` (false afterwards). |
| `Titles.IsValid` | src/TodoApp.Domain/ValueObjects/Title.cs:77-89 | Definition, characterised by `Titles.IsValidIffConstructs`. |
| `Titles.Contains` | src/TodoApp.Domain/ValueObjects/Title.cs:97-99 | Definition, characterised by `Titles.ContainsOrdinal`. |
| `Descriptions.IsValidAsWritten` | src/TodoApp.Domain/ValueObjects/Description.cs:82-83 | Definition of the written `IsValid`, characterised by `Descriptions.IsValidAsWrittenAgrees` and `Descriptions.IsValidAsWrittenDisagrees`. |
| `Descriptions.IsValid` | src/TodoApp.Domain/ValueObjects/Description.cs:82-83 | Definition of the corrected `IsValid`, characterised by `Descriptions.IsValidIffConstructs`. |
| `Descriptions.IsEmpty` | src/TodoApp.Domain/ValueObjects/Description.cs:23 | Definition, characterised by `Descriptions.IsEmptyIffAbsent`. |
| `Descriptions.Contains` | src/TodoApp.Domain/ValueObjects/Description.cs:91-93 | Definition, characterised by `Descriptions.ContainsOrdinal`. |
| `Descriptions.GetWordCount` | src/TodoApp.Domain/ValueObjects/Description.cs:99-108 | Definition, characterised by `Descriptions.CountsAreRuns`. |
| `Descriptions.GetLineCount` | src/TodoApp.Domain/ValueObjects/Description.cs:110-119 | Definition, characterised by `Descriptions.CountsAreRuns`. |
| `TaskTitles.IsValid` | src/TodoApp.Domain/ValueObjects/TaskTitle.cs:57-66 | Definition, characterised by `TaskTitles.IsValidIffConstructs`. |
| `TaskDescriptions.IsValid` | src/TodoApp.Domain/ValueObjects/TaskDescription.cs:59-60 | Definition, characterised by `TaskDescriptions.IsValidIffConstructs`. |
| `TaskDescriptions.IsEmpty` | src/TodoApp.Domain/ValueObjects/TaskDescription.cs:18 | Definition, characterised by `TaskDescriptions.IsEmptyIffBlank`. |
| `TaskDescriptions.Contains` | src/TodoApp.Domain/ValueObjects/TaskDescription.cs:68-70 | Definition, characterised by `TaskDescriptions.ContainsOrdinal`. |
| `TodoTasks.TodoTask.IsCompleted` | src/TodoApp.Domain/Entities/TodoTask.cs:182 | Definition, characterised by `TodoTasks.OverdueOnlyWhenCompleted` and `ChangeStatus` (with `Valid`). |
| `TodoTasks.TodoTask.IsOverdue` | src/TodoApp.Domain/Entities/TodoTask.cs:175-176 | Definition, as written, with the clock as a parameter. Characterised by `TodoTasks.OverdueOnlyWhenCompleted`. |
| `TodoListShares.TodoListShare.IsReadOnly` | src/TodoApp.Domain/Entities/TodoListShare.cs:69-71 | Definition, characterised by `TodoListShares.ReadOnlyXorWrite`. |
| `TodoListShares.TodoListShare.CanWrite` | src/TodoApp.Domain/Entities/TodoListShare.cs:76-77 | Definition, characterised by `TodoListShares.ReadOnlyXorWrite`. |
| `PagedRequests.SkipAsWritten` | src/TodoApp.Domain/Pagination/PagedRequest.cs:55-56 | Definition of the written, wrapping `Skip`, characterised by `PagedRequests.SkipAsWrittenOverflows` and `PagedRequests.SkipAgreesWhenInRange`. |
| `PagedRequests.PagedRequest.HasSearch` | src/TodoApp.Domain/Pagination/PagedRequest.cs:61-62 | Definition, characterised by `PagedRequests.HasSearchIffNormalizedNonEmpty`. |
| `PagedRequests.PagedRequest.HasSorting` | src/TodoApp.Domain/Pagination/PagedRequest.cs:67-68 | Definition, characterised by `PagedRequests.HasSortingIffTrimmedNonEmpty`. |
| `PagedRequests.HasSortingIffTrimmedNonEmpty` | src/TodoApp.Domain/Pagination/PagedRequest.cs:67-68 | `HasSorting` holds if and only if `SortBy` is present and non-empty once trimmed. |
| `PagedResults.HasPreviousPage` | src/TodoApp.Domain/Pagination/PagedResult.cs:38-39 | Definition, characterised by `PagedResults.EmptyPages`. |
| `PagedResults.HasNextPage` | src/TodoApp.Domain/Pagination/PagedResult.cs:44-45 | Definition, characterised by `PagedResults.HasNextPageIff`. |
| `Descriptions.RebuildFromValue` | src/TodoApp.Domain/ValueObjects/Description.cs:37-43 | Rebuilding a well-formed Description from its own `Value` and `MaxLength` gives the same Description, absent value included. |
| `Descriptions.ConstructIdempotent` | src/TodoApp.Domain/ValueObjects/Description.cs:37-43 | Constructing from the output of a construction gives the same result. |
| `TaskStatuses.DescriptionsDistinct` | src/TodoApp.Domain/Enums/Extensions/TaskStatusExtensions.cs:28-36 | Every status has a non-empty description, and distinct statuses have distinct descriptions. |
| `TaskDescriptions.GetWordCount` | src/TodoApp.Domain/ValueObjects/TaskDescription.cs:76-82 | Definition, characterised by `TaskDescriptions.CountsAreRuns`. |
| `TaskDescriptions.GetLineCount` | src/TodoApp.Domain/ValueObjects/TaskDescription.cs:88-94 | Definition, characterised by `TaskDescriptions.CountsAreRuns`. |
| `Titles.ForList` | src/TodoApp.Domain/ValueObjects/Title.cs:60-61 | Definition (bound 200), characterised by `Titles.ListAndTaskBounds`. |
| `Titles.ForTask` | src/TodoApp.Domain/ValueObjects/Title.cs:68-69 | Definition (bound 100), characterised by `Titles.ListAndTaskBounds`. |
| `Descriptions.ForList` | src/TodoApp.Domain/ValueObjects/Description.cs:65-66 | Definition (bound 2000), characterised by `Descriptions.ListAndTaskBounds`. |
| `Descriptions.ForTask` | src/TodoApp.Domain/ValueObjects/Description.cs:73-74 | Definition (bound 500), characterised by `Descriptions.ListAndTaskBounds`. |
| `TaskStatuses.GetDisplayName` | src/TodoApp.Domain/Enums/Extensions/TaskStatusExtensions.cs:13-21 | Definition, characterised by `TaskStatuses.DisplayNamesDistinct`. |
| `TaskStatuses.GetDescription` | src/TodoApp.Domain/Enums/Extensions/TaskStatusExtensions.cs:28-36 | Definition, characterised by `TaskStatuses.DescriptionsDistinct`. |
| `TaskPriorities.GetDisplayName` | src/TodoApp.Domain/Enums/Extensions/TaskPriorityExtensions.cs:13-23 | Definition, characterised by `TaskPriorities.DisplayNamesDistinct`. |
| `AuditableEntities.AuditableEntity.IsModified` | src/TodoApp.Domain/Common/AuditableEntity/AuditableEntity.cs:35 | Definition (`UpdatedAt` is set), characterised by `AuditableEntities.ModifiedLaws` and the contracts of the constructor, `SetCreatedInfo` and `SetUpdatedInfo`. |

## Left out

- Repository and unit-of-work interfaces are not modelled: they are asynchronous persistence contracts with no code.
- `DomainException`, `NotFoundException`, the request DTOs and the EF Core navigation properties and private constructors are not modelled.
- The `ToString` overrides and `SharePermission`'s display strings are not modelled.
- Out-of-range enum values, which make the `GetDisplayName` switches throw, cannot be built from the Dafny datatypes.
- `Entities.HashCode` returns `None` for a transient entity: the reference-based fallback hash depends on runtime object identity. No Guid entity is transient, so this case never arises here.
- `Entities.GuidHash` models the exclusive-or of the four 32-bit words. The byte layout of a Guid is treated as opaque.
- Case-insensitive `Contains` takes the invariant case mapping as a `fold` parameter instead of modelling Unicode case folding.
- Strings are sequences of Unicode scalar values. A .NET string counts UTF-16 code units, so text outside the Basic Multilingual Plane has different lengths here.
- A `searchText` of null makes the C# `Contains` throw. The model's search text is never null.
- `PagedResults.TotalPages` is modelled only for a page size > 0. With a page size ≤ 0 the C# divides a double by zero or a negative number and casts the result to int, which depends on the runtime.
- `PagedResults.HasNextPage` takes the same page size > 0 precondition.
- `PagedRequest.Skip` is modelled by its corrected, overflow-free form, `PagedRequests.Skip`. The written form is `PagedRequests.SkipAsWritten` (see Findings).
- `SearchTerm`, `SortBy` and `SortDirection` are plain auto-properties and are modelled as plain fields.
- The entity constructors that take a nullable argument are split in two:
  - a constructor for the accepted case, whose precondition is the check the source makes;
  - a static `New` that makes the checks and returns `Err`.
- `DateTime.UtcNow` is read twice in the C# when an entity is created: once by the `CreatedAt` initializer and once by `SetCreatedInfo`. The second overwrites the first, so one `now` stands for both reads.
- Domain events are compared by reference, as `BaseDomainEvent` is a class that does not override `Equals`. An `IDomainEvent` written as a C# record would be removed by `RemoveDomainEvent` by value. The model does not capture that.

## Findings

| source | as written | input that shows it | evidently intended | confidence | as-written member | corrected member |
|---|---|---|---|---|---|---|
| src/TodoApp.Domain/ValueObjects/Description.cs:82-83 | `IsValid` does not check `maxLength`, while the constructor rejects a negative one | `IsValid(null, -1)` is true, but `new Description(null, -1)` throws | `IsValid(v, m)` holds exactly when `new Description(v, m)` succeeds | not executed; low impact, since only a negative bound exposes it | `Descriptions.IsValidAsWrittenDisagrees` | `Descriptions.IsValidIffConstructs` |
| src/TodoApp.Domain/Pagination/PagedRequest.cs:55-56 | `Skip` multiplies two ints unchecked | `PageNumber = 21474838`, `PageSize = 100` (both accepted by the setters) gives `Skip = -2147483596` | `Skip` is the non-negative offset `(PageNumber - 1) * PageSize` | not executed; the page number must exceed 21,474,837 | `PagedRequests.SkipAsWrittenOverflows` | `PagedRequests.Skip` |
