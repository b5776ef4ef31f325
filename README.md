# crcfactory in Dafny

A model of `crcfactory.h`, a header-only generic CRC engine. It computes any CRC of the
five-parameter "Rocksoft" model of Ross Williams' CRC guide: width, polynomial,
reflected, initial value and output xor.

The engine has two paths:

- The bit-at-a-time path normalises the parameters, feeds each data byte into a register
  and shifts it eight times, then converts the final register into the CRC value.
- The table-driven path precomputes 256 register updates and does one lookup per byte.

The register works in one of three conventions:

- **reflected**: the CRC is bit-reversed and shifts right;
- **narrow**: non-reflected, width below 8, left-justified in the low byte;
- **wide**: non-reflected, width 8 or more, right-justified.

The register and the table entries are 64-bit words (`bv64`), as `utils/crctable.c`
instantiates the header. Widths are `bv8` values in 1..64.

Files:

- `bits.dfy` (`Bits`): bit vocabulary shared by the model (`Fits`, `LowBits`, named xor and shift, bounds on register values).
- `reflect.dfy` (`Reflection`): the four sized reflect helpers and the dispatcher, with their bit-level properties.
- `reflect_inverse.dfy` (`ReflectionInverse`): reflecting twice keeps the low `width` bits.
- `engine.dfy` (`Engine`): the bitwise path, covering mask, setup, update, result and whole-message CRC.
  The two loops of the source are methods, each proved against a specification function.
- `table.dfy` (`Table`): table construction, table update and the table-driven CRC.
  The table build writes a caller-owned `array<bv64>` in place.
- `linear.dfy` (`Linear`): the shift steps distribute over xor. This is what makes a table of single-byte updates correct.
- `left_shifts.dfy` (`LeftShifts`): a left-shifting step that tests an arbitrary bit. Its low bits depend only on the low bits it starts from.
- `agree_right.dfy`, `agree_byte.dfy`, `agree_wide.dfy`: one table lookup equals one bitwise update, in each of the three conventions.
- `agreement.dfy` (`Agreement`): the table-driven CRC equals the bitwise CRC for every parameter set and message.
- `properties.dfy` (`Properties`): masking, setup, register bounds, table entry bounds and the empty message.
- `checks.dfy` (`CheckValues`): published check values for CRC-32, CRC-16/CCITT-FALSE, CRC-8, CRC-3/GSM and CRC-64/XZ.

## Model

| member | source | states |
|---|---|---|
| Reflection.Reflect8 | crcfactory.h:54-59 | no ensures: the 8-bit swap network, then a right shift by 8 - width; its meaning is stated by Reflection.Reflect8Bit |
| Reflection.Reflect8Bit | crcfactory.h:54-59 | for width ≤ 8, bit i of the result is bit width-1-i of the input for i < width; every higher bit is clear |
| Reflection.Reflect16 | crcfactory.h:61-67 | no ensures: the 16-bit swap network, then a right shift by 16 - width; see Reflection.Reflect16Bit |
| Reflection.Reflect16Bit | crcfactory.h:61-67 | the same bit reversal for the 16-bit helper, widths ≤ 16 |
| Reflection.Reflect32 | crcfactory.h:69-76 | no ensures: the 32-bit swap network, then a right shift by 32 - width; see Reflection.Reflect32Bit |
| Reflection.Reflect32Bit | crcfactory.h:69-76 | the same bit reversal for the 32-bit helper, widths ≤ 32 |
| Reflection.Reflect64 | crcfactory.h:78-86 | no ensures: the 64-bit swap network, then a right shift by 64 - width; see Reflection.Reflect64Bit |
| Reflection.Reflect64Bit | crcfactory.h:78-86 | the same bit reversal for the 64-bit helper, every width |
| Reflection.Reflect | crcfactory.h:88-98 | no ensures: `crcfactory_reflect`, choosing the helper by the thresholds 32, 16 and 8; see Reflection.ReflectBit, Reflection.ReflectFits and ReflectionInverse.ReflectInvolution |
| Reflection.ReflectBit | crcfactory.h:88-98 | the dispatcher reverses the low `width` bits for every width 1..64 and clears all bits at or above `width` |
| Reflection.ReflectFits | crcfactory.h:88-98 | a reflected value is below 2^width |
| ReflectionInverse.ReflectInvolution | crcfactory.h:54-98 | reflecting twice gives the value with all bits at or above `width` cleared |
| Engine.Mask | crcfactory.h:100-109 | no ensures: `_crcfactory_mask`; see Properties.MaskLow |
| Properties.MaskLow | crcfactory.h:100-109 | the mask keeps the low 8 bits for non-reflected widths ≤ 8 and the low `width` bits otherwise; for width 64 the value is unchanged; the result fits that many bits |
| Engine.SetupState | crcfactory.h:111-122 | no ensures: `crcfactory_setup_state`; see Properties.SetupSame, Properties.SetupByteBound and Properties.SetupReflectedFits |
| Engine.SetupPoly | crcfactory.h:124-131 | no ensures: `crcfactory_setup_poly`; see Properties.SetupSame |
| Properties.SetupSame | crcfactory.h:111-131 | the initial value and the polynomial are normalised by the same rule |
| Properties.SetupByteBound | crcfactory.h:116-117 | for non-reflected widths ≤ 8, a value below 2^width is below 256 after setup |
| Properties.SetupReflectedFits | crcfactory.h:114-115 | in reflected mode a set-up value is below 2^width |
| Properties.SetupFinalize | crcfactory.h:167-178 | the result step applied to a freshly set-up register gives the initial value back: reflected, or truncated to `width` bits |
| Engine.Feed | crcfactory.h:136-155 | no ensures: the xor of the data byte into the register that starts each branch of `crcfactory_update` |
| Engine.Step | crcfactory.h:138-162 | no ensures: one iteration of the shift loop in each convention |
| Engine.Steps | crcfactory.h:138-162 | no ensures: `n` iterations of the shift loop; see Linear.StepsLinear |
| Engine.UpdateSpec | crcfactory.h:133-165 | no ensures: the register after one byte, which Engine.Update is proved to compute; see Linear.StepsLinear and Properties.ReflectedUpdateFits |
| Engine.Update | crcfactory.h:133-165 | the three eight-step loops compute the per-byte register update `UpdateSpec` |
| Linear.StepsLinear | crcfactory.h:138-162 | any number of shift steps distributes over xor, in every convention |
| Properties.ReflectedUpdateFits | crcfactory.h:136-144 | if state and polynomial are below 2^width, the reflected update is below 2^width, whatever the data byte |
| Properties.ReflectedProcessFits | crcfactory.h:186-188 | the reflected register stays below 2^width over any message |
| Properties.ReflectedResultUnmasked | crcfactory.h:170-171 | in reflected mode, returning the unmasked register equals returning the masked one |
| Engine.Finalize | crcfactory.h:170-176 | no ensures: the result step before the output xor; see Properties.SetupFinalize and Properties.ReflectedResultUnmasked |
| Engine.Result | crcfactory.h:167-178 | no ensures: `crcfactory_result`, Engine.Finalize followed by the output xor; see Agreement.AgreeResult and Properties.EmptyCrc |
| Engine.Process | crcfactory.h:186-188 | no ensures: the register after the data loop of `crcfactory_crc`; see Properties.ReflectedProcessFits |
| Engine.CrcSpec | crcfactory.h:180-190 | no ensures: `crcfactory_crc` on a byte sequence, which Engine.Crc is proved to compute; see Properties.EmptyCrc and the CheckValues lemmas |
| Engine.Crc | crcfactory.h:180-190 | the loop over the data computes the bitwise CRC `CrcSpec` of the array's contents |
| Properties.EmptyCrc | crcfactory.h:180-190 | the CRC of the empty message is the initial value in the output convention, xored with the output xor |
| Table.Entry | crcfactory.h:197 | no ensures: the masked update of an all-zero register by one byte; see Properties.EntryFits |
| Table.TableSpec | crcfactory.h:192-199 | the table has exactly 256 entries; Table.TableInit is proved to write it, and Properties.EntryFits bounds its entries |
| Table.TableInit | crcfactory.h:192-199 | after the build, entry i is the masked update of an all-zero register by byte i, for all 256 entries |
| Properties.EntryFits | crcfactory.h:197 | every table entry fits the mask width: below 256 for non-reflected widths ≤ 8, below 2^width otherwise |
| Agreement.TableSpecByteTable | crcfactory.h:196-198 | for non-reflected widths ≤ 8, every entry of the built table is below 256 |
| Table.Index | crcfactory.h:201-208 | the table index is in 0..255 in reflected and wide mode, and in byte mode whenever the register is below 256 |
| Table.TableUpdate | crcfactory.h:204-205 | in byte mode a lookup in a table whose entries are below 256 leaves a register below 256 |
| Table.TableProcess | crcfactory.h:217-219 | the table loop keeps the register a valid index for the byte-mode lookup |
| RightAgreement.RightTableStep | crcfactory.h:202-203 | in reflected mode one table lookup equals one bitwise update |
| ByteAgreement.ByteTableStep | crcfactory.h:204-205 | for non-reflected widths ≤ 8, one table lookup equals the low byte of one bitwise update |
| WideAgreement.WideTableStep | crcfactory.h:206-207 | for non-reflected widths above 8, one table lookup equals one bitwise update on the low `width` bits |
| Agreement.AgreeProcess | crcfactory.h:217-219 | the table register tracks the bitwise register over a whole message |
| Agreement.AgreeResult | crcfactory.h:167-178 | registers that agree in this sense give the same CRC value |
| Table.TableCrcSpec | crcfactory.h:212-221 | no ensures: `crcfactory_table_crc` on a byte sequence, which Table.TableCrc is proved to compute; see Agreement.TableCrcAgrees |
| Table.TableCrc | crcfactory.h:212-221 | the loop over the data computes the table-driven CRC `TableCrcSpec` of the array's contents |
| Agreement.TableCrcAgrees | crcfactory.h:180-221 | with the table that table_init builds, the table-driven CRC equals the bitwise CRC for every parameter set, output xor and message; in byte mode the set-up initial value must be a valid index |
| Properties.TableCrcMatches | crcfactory.h:212-221 | the same equality whenever, in byte mode, the initial value fits the width |
| Properties.EmptyTableCrc | crcfactory.h:212-221 | on the empty message the table-driven CRC is also the result of the set-up initial value |
| CheckValues.Crc32Check | crcfactory.h:180-190 | CRC-32 (width 32, reflected, poly 0x04C11DB7, iv and xorout 0xFFFFFFFF) of "123456789" is 0xCBF43926 |
| CheckValues.Crc16CcittFalseCheck | crcfactory.h:180-190 | CRC-16/CCITT-FALSE of "123456789" is 0x29B1 (wide convention) |
| CheckValues.Crc8Check | crcfactory.h:180-190 | CRC-8 (poly 0x07) of "123456789" is 0xF4 (width 8, byte mode) |
| CheckValues.Crc3GsmCheck | crcfactory.h:180-190 | CRC-3/GSM of "123456789" is 0x4 (narrow convention) |
| CheckValues.Crc64XzCheck | crcfactory.h:180-190 | CRC-64/XZ of "123456789" is 0x995DC9BBDF1939FA (width 64, reflected) |
| CheckValues.Crc32TableCheck | crcfactory.h:212-221 | the table-driven CRC-32 of "123456789" is also 0xCBF43926 |
| CheckValues.Crc3GsmTableCheck | crcfactory.h:212-221 | the table-driven CRC-3/GSM of "123456789" is also 0x4 |

## Left out

- Configurable C types (crcfactory.h:31-39): the register and the table entries are fixed at 64 bits. With a narrower register type, such as the default `uint_fast32_t`, values wrap at that width; this is not modelled.
- The `_8`/`_16`/`_32` arguments of the reflect helpers (crcfactory.h:41-52) only silence compiler warnings. They are the constants 8, 16 and 32 here.
- `always_inline` and the `CRCFACTORY_*FUNC` wrapper macros (crcfactory.h:223-240): they only fix parameters, and add no behaviour.
- `utils/crctable.c` is not part of this model. It is a command-line front end; its check that the width is in 1..64 is the `requires 1 <= width <= 64` on every member.
- Widths outside 1..64 are undefined in C and are excluded by precondition. Each sized reflect helper likewise requires a width its lane holds, which the dispatcher guarantees.
- Engine.Mask: the guard `(1ULL << width) == 1` (crcfactory.h:107) detects width 64 on the hardware the comment describes. It is modelled as `width == 64`, its intended meaning.
- Table.TableUpdate, Table.TableCrc: in byte mode the source indexes `table[data ^ state]` without masking (crcfactory.h:205). The model requires the register to be below 256 there, since a larger one reads outside the table. Properties.TableCrcMatches shows that an initial value that fits the width meets this requirement.
- Data buffers are Dafny arrays: a pointer with a length, and a null pointer, are not modelled.
- Properties.MaskLow, Properties.EntryFits: for non-reflected widths ≤ 8 the mask keeps a whole byte (crcfactory.h:101-102), so table entries there are bytes, not `width` bits.
- ReflectionInverse.ReflectInvolution is stated with `LowBits(value, width)` rather than with `Engine.Mask`, because the mask keeps a whole byte for non-reflected widths ≤ 8 (crcfactory.h:101-102).
