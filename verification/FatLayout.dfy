/** The fixed 64 MiB FAT16 layout of the seed disk: geometry constants, the boot
    sector, and the image that a volume's three regions denote. */
module FatLayout {
  import opened Bytes

  const SEED_IMAGE_BYTES := 64 * 1024 * 1024
  const BYTES_PER_SECTOR := 512
  const SECTORS_PER_CLUSTER := 4
  const CLUSTER_BYTES := BYTES_PER_SECTOR * SECTORS_PER_CLUSTER
  const RESERVED_SECTORS := 4
  const NUM_FATS := 2
  const ROOT_ENTRIES := 512
  const SLOT_BYTES := 32
  const ROOT_DIR_BYTES := ROOT_ENTRIES * SLOT_BYTES
  const ROOT_DIR_SECTORS := ROOT_DIR_BYTES / BYTES_PER_SECTOR
  const TOTAL_SECTORS := SEED_IMAGE_BYTES / BYTES_PER_SECTOR
  const FAT_ENTRY_EOC: word := 0xFFFF
  const FAT_ENTRY_MEDIA: word := 0xFFF8
  const FIRST_DATA_CLUSTER := 2

  const FAT_SECTORS := 128
  const CLUSTER_COUNT := ClustersFor(FAT_SECTORS)

  const FAT_START := RESERVED_SECTORS * BYTES_PER_SECTOR
  const FAT_BYTES := FAT_SECTORS * BYTES_PER_SECTOR
  const ROOT_DIR_START := (RESERVED_SECTORS + NUM_FATS * FAT_SECTORS) * BYTES_PER_SECTOR
  const DATA_START := ROOT_DIR_START + ROOT_DIR_BYTES
  const DATA_BYTES := CLUSTER_COUNT * CLUSTER_BYTES

  function ClustersFor(fatSectors: nat): (n: int)
  {
    (TOTAL_SECTORS - RESERVED_SECTORS - NUM_FATS * fatSectors - ROOT_DIR_SECTORS) / SECTORS_PER_CLUSTER
  }

  /** Sectors one FAT copy needs to hold an entry for every cluster id. */
  function SectorsNeeded(clusters: int): (n: int)
  {
    ((clusters + 2) * 2 + BYTES_PER_SECTOR - 1) / BYTES_PER_SECTOR
  }

  /** The compile-time iteration that picks `sectors_per_fat`. It ends, on a value that is
      self-consistent; one FAT copy holds every cluster id, and the regions fill the image. */
  method ConvergeFatSectors() returns (fatSectors: nat)
    ensures SectorsNeeded(ClustersFor(fatSectors)) == fatSectors == FAT_SECTORS
    ensures (CLUSTER_COUNT + FIRST_DATA_CLUSTER) * 2 <= FAT_BYTES
    ensures FAT_START + NUM_FATS * FAT_BYTES == ROOT_DIR_START
    ensures DATA_START + DATA_BYTES == SEED_IMAGE_BYTES
  {
    fatSectors := 256;
    var needed := SectorsNeeded(ClustersFor(fatSectors));
    while needed != fatSectors
      invariant fatSectors == 256 || fatSectors == 128
      invariant needed == SectorsNeeded(ClustersFor(fatSectors))
      decreases fatSectors
    {
      fatSectors := needed;
      needed := SectorsNeeded(ClustersFor(fatSectors));
    }
  }

  /** The boot sector's first 16 bytes: jump stub, `"MSDOS5.0"`, sector, cluster and
      reserved sizes. */
  function BootIdentity(): (s: seq<byte>)
    ensures |s| == 0x10
  {
    [0xEB, 0x3C, 0x90, 0x4D, 0x53, 0x44, 0x4F, 0x53, 0x35, 0x2E, 0x30, 0x00, 0x02, 4, 4, 0]
  }

  /** FAT copies, root entries, 16-bit sector count (0), media, sectors per FAT, CHS. */
  function BootGeometry(): (s: seq<byte>)
    ensures |s| == 0xC
  {
    [2, 0x00, 0x02, 0, 0, 0xF8, 128, 0, 32, 0, 8, 0]
  }

  /** Hidden sectors, 131072 sectors, drive, signature, volume id. */
  function BootDrive(): (s: seq<byte>)
    ensures |s| == 0xF
  {
    [0, 0, 0, 0, 0, 0, 2, 0, 0x80, 0, 0x29, 1, 0, 0, 0]
  }

  /** The whole sector; `"FAT16   "` follows the label. */
  function BootSector(): (s: seq<byte>)
    ensures |s| == 512
  {
    BootIdentity() + BootGeometry() + BootDrive()
    + VolumeLabel() + [0x46, 0x41, 0x54, 0x31, 0x36, 0x20, 0x20, 0x20]
    + Zeros(448) + [0x55, 0xAA]
  }

  /** `"CIDATA     "`. */
  function VolumeLabel(): (s: seq<byte>)
    ensures |s| == 11
  {
    [0x43, 0x49, 0x44, 0x41, 0x54, 0x41, 0x20, 0x20, 0x20, 0x20, 0x20]
  }

  /** The part of each region that has been written; everything after it is zero. Both FAT
      copies hold `fat`. */
  datatype Volume = Volume(fat: seq<byte>, root: seq<byte>, data: seq<byte>) {
    ghost predicate Fits() {
      |fat| <= FAT_BYTES && |root| <= ROOT_DIR_BYTES && |data| <= DATA_BYTES
    }
  }

  function ByteOr0(s: seq<byte>, i: nat): (b: byte)
  {
    if i < |s| then s[i] else 0
  }

  function ImageByte(v: Volume, k: nat): (b: byte)
  {
    if k < 512 then BootSector()[k]
    else if k < FAT_START then 0
    else if k < FAT_START + FAT_BYTES then ByteOr0(v.fat, k - FAT_START)
    else if k < ROOT_DIR_START then ByteOr0(v.fat, k - FAT_START - FAT_BYTES)
    else if k < DATA_START then ByteOr0(v.root, k - ROOT_DIR_START)
    else ByteOr0(v.data, k - DATA_START)
  }

  function Image(v: Volume): (img: seq<byte>)
    ensures |img| == SEED_IMAGE_BYTES
    ensures forall k :: 0 <= k < SEED_IMAGE_BYTES ==> img[k] == ImageByte(v, k)
  {
    seq(SEED_IMAGE_BYTES, k requires 0 <= k => ImageByte(v, k))
  }

  /** `later` is `v` after more appends. */
  ghost predicate Extends(later: Volume, v: Volume)
  {
    v.fat <= later.fat && v.root <= later.root && v.data <= later.data
  }

  /** One FAT entry, as either copy of a volume's FAT gives it. */
  function FatEntry(v: Volume, c: nat): (e: word)
  {
    var lo: int, hi: int := ByteOr0(v.fat, 2 * c), ByteOr0(v.fat, 2 * c + 1);
    lo + 0x100 * hi
  }

  /** Store a field at offset `at` of a buffer that has been filled up to there. */
  method StoreNext(img: array<byte>, ghost done: seq<byte>, at: nat, field: seq<byte>)
    returns (ghost filled: seq<byte>)
    requires at == |done| && at + |field| <= img.Length
    requires img[..] == Fit(done, img.Length)
    modifies img
    ensures filled == done + field
    ensures img[..] == Fit(filled, img.Length)
  {
    Store(img, at, field);
    filled := done + field;
  }

  function IdentityFields(): (s: seq<byte>)
  {
    [0xEB, 0x3C, 0x90] + [0x4D, 0x53, 0x44, 0x4F, 0x53, 0x35, 0x2E, 0x30] + Le16(BYTES_PER_SECTOR)
    + [SECTORS_PER_CLUSTER] + Le16(RESERVED_SECTORS)
  }

  function GeometryFields(): (s: seq<byte>)
  {
    [NUM_FATS] + Le16(ROOT_ENTRIES) + Le16(0) + [0xF8] + Le16(FAT_SECTORS) + Le16(32) + Le16(8)
  }

  function DriveFields(): (s: seq<byte>)
  {
    Le32(0) + Le32(TOTAL_SECTORS) + [0x80] + [0] + [0x29] + Le32(1)
  }

  /** The fields of the boot sector, encoded. */
  lemma BootFields()
    ensures IdentityFields() == BootIdentity() && GeometryFields() == BootGeometry() && DriveFields() == BootDrive()
  {
  }

  method WriteBootIdentity(img: array<byte>)
    requires 0x10 <= img.Length
    requires img[..] == Zeros(img.Length)
    modifies img
    ensures img[..] == Fit(BootIdentity(), img.Length)
  {
    assert img[..] == Fit([], img.Length);
    hide Fit, Le16, BootIdentity;
    BootFields();
    ghost var done := StoreNext(img, [], 0, [0xEB, 0x3C, 0x90]);
    done := StoreNext(img, done, 3, [0x4D, 0x53, 0x44, 0x4F, 0x53, 0x35, 0x2E, 0x30]);
    done := StoreNext(img, done, 0x0B, Le16(BYTES_PER_SECTOR));
    done := StoreNext(img, done, 0x0D, [SECTORS_PER_CLUSTER]);
    done := StoreNext(img, done, 0x0E, Le16(RESERVED_SECTORS));
    assert done == IdentityFields();
  }

  method WriteBootGeometry(img: array<byte>)
    requires 0x1C <= img.Length
    requires img[..] == Fit(BootIdentity(), img.Length)
    modifies img
    ensures img[..] == Fit(BootIdentity() + BootGeometry(), img.Length)
  {
    hide Fit, Le16, Le32, BootIdentity, BootGeometry, BootDrive, IdentityFields, DriveFields;
    BootFields();
    ghost var done := StoreNext(img, BootIdentity(), 0x10, [NUM_FATS]);
    done := StoreNext(img, done, 0x11, Le16(ROOT_ENTRIES));
    done := StoreNext(img, done, 0x13, Le16(0));
    done := StoreNext(img, done, 0x15, [0xF8]);
    done := StoreNext(img, done, 0x16, Le16(FAT_SECTORS));
    done := StoreNext(img, done, 0x18, Le16(32));
    done := StoreNext(img, done, 0x1A, Le16(8));
    assert done == BootIdentity() + GeometryFields();
  }

  method WriteBootDrive(img: array<byte>)
    requires 0x2B <= img.Length
    requires img[..] == Fit(BootIdentity() + BootGeometry(), img.Length)
    modifies img
    ensures img[..] == Fit(BootIdentity() + BootGeometry() + BootDrive(), img.Length)
  {
    hide Fit, Le16, Le32, BootIdentity, BootGeometry, BootDrive, IdentityFields, GeometryFields;
    BootFields();
    ghost var start := BootIdentity() + BootGeometry();
    ghost var done := StoreNext(img, start, 0x1C, Le32(0));
    done := StoreNext(img, done, 0x20, Le32(TOTAL_SECTORS));
    done := StoreNext(img, done, 0x24, [0x80]);
    done := StoreNext(img, done, 0x25, [0]);
    done := StoreNext(img, done, 0x26, [0x29]);
    done := StoreNext(img, done, 0x27, Le32(1));
    assert done == start + DriveFields();
  }

  method WriteBootSector(img: array<byte>)
    requires img.Length == SEED_IMAGE_BYTES
    requires img[..] == Zeros(img.Length)
    modifies img
    ensures img[..] == Image(Volume([], [], []))
  {
    WriteBootIdentity(img);
    WriteBootGeometry(img);
    WriteBootDrive(img);
    ghost var done := BootIdentity() + BootGeometry() + BootDrive();
    done := StoreNext(img, done, 0x2B, VolumeLabel());
    done := StoreNext(img, done, 0x36, [0x46, 0x41, 0x54, 0x31, 0x36, 0x20, 0x20, 0x20]);
    Store(img, 0x1FE, [0x55, 0xAA]);
  }
}
