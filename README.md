# Contexts and products of insights-core, in Dafny

This project models `insights/core/context.py` of insights-core. That module
defines the objects an analysis runs against:

- **Registries.** The module keeps three lists: `GLOBAL_PRODUCTS`,
  `PRODUCT_NAMES` and `FSRoots`. The `@product` and `@fs_root` decorators
  fill them as the module is imported.
- **Products.** Docker, OSP and RHEV are multi-node products. A multi-node
  product is truthy iff its `role` is. It is a parent iff its `role` equals
  its class's `parent_type`. RHEL is truthy iff its version is not
  `DEFAULT_VERSION` and its release is truthy.
- **`get_system` and `create_product`.**
  - `get_system` finds the first system in the upload metadata whose
    `system_id` equals the hostname.
  - `create_product` builds the first registered product whose name equals
    the lower-cased `metadata["product"]`. It builds it only from a
    non-empty matched system.
  - The instance takes the matched system dict as its own `__dict__`, so
    setting `role` from `type` also writes into the metadata.
- **`Context`.** It keeps its version, its metadata and eight optional
  attributes, plus one slot per registered product. Each slot is the keyword
  argument of that name if one was passed; otherwise it is
  `create_product(metadata, hostname)`. `Context.product()` returns the slot
  of the first registered name it has.
- **`ExecutionContext` and its subclasses.**
  - `timeout or self.timeout` picks the timeout in force.
  - `shell_out` shapes what the command returned: split into lines or not,
    with or without the exit status.
  - `locate_path` expands environment variables. `JDRContext` first rewrites
    `$JBOSS_HOME` to `JBOSS_HOME`.

Layout, one module per file:

| file | module | contents |
|---|---|---|
| `py.dfy` | `Py` | Python values, truthiness, `==`, ASCII `lower()`, and the first-match search used by every `for ... if ...: return` loop of the source |
| `pystrings.dfy` | `PyStrings` | `str.splitlines()` and `str.replace()` |
| `products.dfy` | `Products` | product classes, `__bool__`, `is_parent`, `get_system`, `create_product` |
| `product_slots.dfy` | `ProductSlots` | the rules by which the loop in `Context.__init__` fills the product slots |
| `registration.dfy` | `Registration` | the three module-level lists and their decorators |
| `contexts.dfy` | `Contexts` | `Context` |
| `execution.dfy` | `Execution` | `ExecutionContext` and its subclasses |

Behaviours of the source the model keeps on purpose:

- A system without `system_id` matches a hostname of None, because
  `system.get("system_id")` is then None.
- An empty system dict is falsy. `create_product` returns None for it even
  when it matches.
- Every product slot that is not supplied gets the result of its own
  `create_product` call. These are equal instances of the same class, built
  on the same matched system dict. So with `metadata["product"] == "osp"`
  the `docker`, `rhev` and `rhel` slots also hold an OSP instance.
  `Context.product()` returns the slot of the first registered name,
  `docker`.
- Suppose a product name is registered twice. The first registration pops
  its keyword argument, so the later slot is overwritten with
  `create_product`'s result.
- `JDRContext.locate_path` rewrites every `$JBOSS_HOME`, but it does not
  stop every reference to the variable from being expanded. `$$JBOSS_HOME`
  becomes `$JBOSS_HOME`, and `${JBOSS_HOME}` is left as it is
  (`Execution.RewriteFormsReference`, `Execution.RewriteKeepsBraced`).
- `create_product` writes `role` into the matched system of the metadata.
  A second call therefore sees the updated metadata. The model proves that
  the second call returns the same product and leaves the metadata as the
  first call did (`Products.TouchedKeepsProduct`).

## Model

| member | source | states |
|---|---|---|
| `Py.PyEqReflexive` | insights/core/context.py:43 | Python `==` on the modelled values is reflexive |
| `Py.PyEqSymmetric` | insights/core/context.py:43 | Python `==` is symmetric, so `role == parent_type` does not depend on the operand order |
| `Py.PyEqStrings` | insights/core/context.py:88 | comparing with a list of strings such as `DEFAULT_VERSION` is structural equality: no bool/int coercion applies |
| `Py.FalsyValues` | insights/core/context.py:38 | `bool()` is false exactly for None, False, 0, `""` and `[]` |
| `Py.PyEqKinds` | insights/core/context.py:28 | `==` across types: None equals only None, a string only the same string, a list only a list, and `True == 1`, `False == 0` |
| `Py.LowerSpec` | insights/core/context.py:49 | `.lower()` keeps the length, turns every ASCII capital into its lower-case letter, leaves no ASCII capital and keeps every other character |
| `Py.FirstIndexSpec` | insights/core/context.py:27-29 | the first-match search returns the first index that passes, with none before it, and None iff no element passes |
| `Products.ParentType` | insights/core/context.py:57-75 | the `parent_type` class attributes: `host` for Docker, `Director` for OSP, `Manager` for RHEV, each the only class with that value |
| `Products.Bool` | insights/core/context.py:87-89 | a multi-node product is truthy iff its `role` is truthy; RHEL is truthy iff its version differs from `DEFAULT_VERSION` and its release is truthy; each raises iff a field it reads is missing |
| `Products.IsParent` | insights/core/context.py:42-43 | holds iff `role` equals the class's `parent_type`; raises without a `role`; RHEL has no `is_parent` |
| `Products.GetAttr` | insights/core/context.py:38 | attribute lookup finds the instance's own field first, then the class attribute, and raises `AttributeError` for that name iff neither exists |
| `Products.Construct` | insights/core/context.py:50 | `p()` builds an instance of `p` with the default arguments; it is falsy, and a multi-node one is no parent |
| `Products.ConstructedTruthiness` | insights/core/context.py:34-89 | a freshly built multi-node product is truthy exactly as its role, and a parent iff the role is its `parent_type`; `RHEL(version, release)` is truthy iff the version is not `DEFAULT_VERSION` and the release is truthy |
| `Products.RhelFromMetadata` | insights/core/context.py:93-95 | `from_metadata` returns a default RHEL, which is falsy |
| `Products.MatchesSystemId` | insights/core/context.py:28 | a system without `system_id` matches exactly the hostname None; a string `system_id` matches exactly the same string |
| `Products.FirstMatchSpec` | insights/core/context.py:27-28 | the matched position is the first system whose `system_id` equals the hostname, and there is none iff no system matches |
| `Products.SystemFor` | insights/core/context.py:26-29 | `get_system` returns a system of the list that matches, with no matching system before it; it returns None iff no system matches, and always without a `systems` entry |
| `Products.GetSystem` | insights/core/context.py:26-29 | the loop returns the first matching system and its position, or None when no system matches |
| `Products.RequestedNameSpec` | insights/core/context.py:49 | without a `product` entry the requested name is `""`; any spelling of a product's name that differs only in ASCII case requests that product |
| `Products.FirstNamedSpec` | insights/core/context.py:48-49 | the product chosen is the first registered one whose name is the requested one, and there is none iff no registered name matches |
| `Products.WithRoleFields` | insights/core/context.py:51-53 | the instance's fields are exactly the system's, plus `role` set from `type` when the system has a `type` |
| `Products.WithRoleIdempotent` | insights/core/context.py:52-53 | setting `role` from `type` a second time changes nothing |
| `Products.ProductForSpec` | insights/core/context.py:46-54 | `create_product` returns an instance of a registered product with the requested name, holding the matched non-empty system's fields with `role` from `type`; it returns one whenever the matched system is non-empty and some registered product has the requested name |
| `Products.TouchedSpec` | insights/core/context.py:51-53 | `create_product` changes the metadata only in the first matching system, and there only by setting `role` from `type` when it returns a product; the `product` entry and the number of systems stay the same |
| `Products.ProductForNone` | insights/core/context.py:46-54 | `create_product` returns None when no system matches the hostname, or when no registered product has the requested name |
| `Products.ProductForMatch` | insights/core/context.py:46-54 | on a non-empty first matching system and a first product with the requested name, `create_product` returns an instance of that product whose fields are the system's with `role` from `type` |
| `Products.ProductForFound` | insights/core/context.py:50-53 | unfolding step, a proof helper: once the system and the product are found, what `create_product` returns, and how it writes the role back into the matched system of the metadata |
| `Products.FirstMatchAfterUpdate` | insights/core/context.py:27-28 | replacing the first matching system by one that still matches keeps it the first match |
| `Products.TouchedKeepsProduct` | insights/core/context.py:46-54 | calling `create_product` again on the metadata the first call updated returns the same product and leaves the metadata unchanged |
| `Products.CreateProduct` | insights/core/context.py:46-54 | the loop returns the specified product and the metadata as the write-back through the shared dict leaves it |
| `Products.CreateAgain` | insights/core/context.py:113 | `create_product` on the context's metadata, whether or not an earlier slot has already updated it, returns the first call's product and leaves the first call's metadata |
| `ProductSlots.LeftAfterCounts` | insights/core/context.py:110-111 | a keyword argument is still unpopped iff it was supplied and no class handled so far carries its name |
| `ProductSlots.SlotsAfterCounts` | insights/core/context.py:109-113 | the slots are exactly the registered names; a slot holds its keyword argument iff the name was supplied and is registered once, otherwise `create_product`'s result |
| `ProductSlots.CreatedAfterIff` | insights/core/context.py:109-113 | `create_product` runs iff some registered name was not supplied or is registered twice |
| `ProductSlots.AfterStep` | insights/core/context.py:110-113 | unfolding step, a proof helper: one iteration of the loop: the argument is popped into its slot if still there, otherwise the slot gets `create_product`'s result |
| `Registration.Registry.constructor` | insights/core/context.py:8-12 | the three lists start empty and aligned |
| `Registration.Registry.Loaded` | insights/core/context.py:57-81 | after import, `GLOBAL_PRODUCTS` is Docker, OSP, RHEV, RHEL, `PRODUCT_NAMES` is their names, and `FSRoots` is the seven `@fs_root` classes in definition order |
| `Registration.Registry.DecorateProducts` | insights/core/context.py:57-79 | the four `@product` decorations append the classes and their names in definition order, keeping the lists aligned |
| `Registration.Registry.DecorateFsRoots` | insights/core/context.py:172-203 | the seven `@fs_root` decorations append the classes in definition order |
| `Registration.Registry.Product` | insights/core/context.py:20-23 | `@product` appends the class and its name and returns the class unchanged; the lists stay aligned |
| `Registration.Registry.FsRoot` | insights/core/context.py:15-17 | `@fs_root` appends the class to `FSRoots` and returns it unchanged |
| `Registration.NamesAligned` | insights/core/context.py:119-122 | the first name in `PRODUCT_NAMES` equal to `n` is at the position of the first class in `GLOBAL_PRODUCTS` named `n` |
| `Contexts.FirstSlot` | insights/core/context.py:119-122 | `product()` is None when the context has none of the names, and the first name's slot when it has it |
| `Contexts.LoadedCount` | insights/core/context.py:57-81 | each of the four product names is registered exactly once |
| `Contexts.LoadedSlots` | insights/core/context.py:109-113 | with the module's four products, the slots are the four names, each the supplied argument or else `create_product`'s result, and `create_product` runs iff some name was not supplied |
| `Contexts.LoadedProduct` | insights/core/context.py:119-122 | with the module's four products, `product()` is the `docker` slot: the `docker` argument if supplied, else `create_product`'s result |
| `Contexts.CollectAttrs` | insights/core/context.py:102-107 | the eight optional attributes are set, each to the argument supplied or else None |
| `Contexts.FillSlots` | insights/core/context.py:109-113 | the loop's slots and metadata are those the slot rules specify, with metadata updated iff `create_product` ran |
| `Contexts.Context.constructor` | insights/core/context.py:99-113 | `version` defaults to `DEFAULT_VERSION` and `metadata` to `{}`; the optional attributes are set as supplied, else None; the slots follow the slot rules for `create_product(metadata, hostname)` |
| `Contexts.Context.Product` | insights/core/context.py:119-122 | returns the slot of the first registered name the context has, or None; that is the first registered product's slot when it has one |
| `Execution.ExecutionContext.constructor` | insights/core/context.py:129-132 | stores `root` and `timeout`; `all_files` becomes `[]` when None or empty, and is kept otherwise |
| `Execution.ExecutionContext.Default` | insights/core/context.py:129-132 | `ExecutionContext()` has root `/`, no timeout and `all_files == []` |
| `Execution.ExecutionContext.ForHost` | insights/core/context.py:209-218 | OpenStack and OpenShift contexts get the base defaults and their hostname |
| `Execution.ExecutionContext.EffectiveTimeout` | insights/core/context.py:138 | the call's timeout when truthy, the context's otherwise; a timeout is in force iff either is truthy |
| `Execution.ExecutionContext.LocatePath` | insights/core/context.py:204-206 | `JDRContext` expands the path after rewriting `$JBOSS_HOME`; every other context expands it as given |
| `Execution.RewriteJbossHome` | insights/core/context.py:205 | the rewrite removes only `$` signs, never lengthens the path, and leaves it unchanged iff it holds no `$JBOSS_HOME` |
| `Execution.RewriteJbossHomeSplit` | insights/core/context.py:205 | the rewrite replaces every `$JBOSS_HOME` from left to right: the text before the first one is kept, that one becomes `JBOSS_HOME`, and the rest is rewritten in turn |
| `Execution.RewriteFormsReference` | insights/core/context.py:204-206 | `$$JBOSS_HOME` is rewritten to `$JBOSS_HOME`, which is then expanded |
| `Execution.RewriteKeepsBraced` | insights/core/context.py:204-206 | `${JBOSS_HOME}` is left unchanged by the rewrite, and is then expanded |
| `Execution.ShellOut` | insights/core/context.py:141-152 | returns `(rc, output)` iff `keep_rc`, and lines iff `split`; the lines hold every character of the output except line boundaries, in order |
| `Execution.ShellOutLinesRoundTrip` | insights/core/context.py:149-150 | output made of `\n`-terminated lines comes back as exactly those lines |
| `PyStrings.LineEndIsFirstBreak` | insights/core/context.py:150 | a line ends at the first line boundary of the text |
| `PyStrings.SplitLinesUnfold` | insights/core/context.py:150 | unfolding step, a proof helper: `splitlines()` returns the text up to the first boundary, then the lines after that boundary, with `\r\n` counted as one boundary |
| `PyStrings.SplitLinesNoBreaks` | insights/core/context.py:150 | no line returned by `splitlines()` holds a line boundary |
| `PyStrings.SplitLinesKeepsText` | insights/core/context.py:150 | the lines returned by `splitlines()`, concatenated, are the text without its line boundaries |
| `PyStrings.SplitJoinRoundTrip` | insights/core/context.py:150 | `splitlines()` undoes joining boundary-free lines with `\n` terminators |
| `PyStrings.ReplacePrefix` | insights/core/context.py:205 | `replace` copies a prefix where no occurrence starts and goes on scanning right after it |
| `PyStrings.ReplaceAtStart` | insights/core/context.py:205 | unfolding step, a proof helper: `replace` replaces an occurrence where the scan stands |
| `PyStrings.ReplaceWithoutLead` | insights/core/context.py:205 | `replace` leaves unchanged a text that lacks the pattern's first character |
| `PyStrings.ReplaceAbsent` | insights/core/context.py:205 | `replace` leaves a text without the pattern unchanged |
| `PyStrings.ReplaceShrinks` | insights/core/context.py:205 | with a shorter replacement the text never grows, and it shrinks when the pattern occurs |
| `PyStrings.ReplaceOnlyTouches` | insights/core/context.py:205 | if pattern and replacement differ only in one character, replacing changes nothing else |

## Left out

- `check_output` runs the command through `subproc.call`, which is not part of this model. `ShellOut` takes its result, the exit status and the output, as a parameter.
- `ExecutionContext.stream`, `ExecutionContext.connect` and `Context.stream` are I/O context managers over `insights.util.streams`, which is not part of this model.
- The `__repr__` methods of `Context` and `ExecutionContext` only format text for display.
- `os.path.expandvars` reads the process environment. `LocatePath` takes it as a function parameter.
- `Py.LowerSpec`: models `str.lower()` for ASCII letters only; the Unicode case mappings are left out.
- `metadata` is typed: an optional `systems` list and an optional `product` string. Any other shape, such as a `product` that is not a string, makes the source raise, and the model does not cover it.
- The keyword arguments of `Context(**kwargs)` are grouped as `Kwargs`: `version`, `metadata`, the plain attributes and the product slots. The model does not cover a keyword argument that is none of these, which the source would silently leave unused.
- A product keyword argument is typed `Option<Instance>`, a product or None. The source accepts any value there, and the model does not cover other values.
- `Kwargs` keeps the plain attributes and the product slots in two maps, which may share a key. A Python kwargs dict cannot hold one key twice, so such inputs do not arise in the source.
- `hasattr(instance, "type")` also sees class attributes. No product class defines `type`, so the model looks only at the instance's fields.
- `Execution.ShellOut`: models the command output as a Python 3 `str`, split at all of its line boundaries. On Python 2 the module gets a byte string from `check_output`, and `splitlines()` then breaks only at `\n`, `\r` and `\r\n`. `subproc.call` is not part of this model, so the model does not fix which of the two it returns.
- `Py.Value` has None, bool, int, str and list values only. It has no float, dict, tuple or other kinds. So the model cannot state how `timeout or self.timeout` treats `0.0`, how `bool(role)` treats a dict, or how system fields that hold nested dicts are copied.
- Each slot that `create_product` fills holds its own instance in the source, and those instances share one `__dict__`, the matched system. The model holds each slot as a value, so it does not capture this aliasing from slot to slot or with the metadata.
- `metadata` is a value. The source shares the caller's dict, so the caller also sees the role written back. The model returns that write-back as the context's new `metadata` and does not model the caller's alias.
- The `insights/core/` files other than `context.py` are not part of this model.
